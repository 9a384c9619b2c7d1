/**
 * The heuristic quiz builder of the backend: distractor choice, one objective
 * question per sentence, one subjective question per sentence, and the quiz of
 * `count` questions padded with placeholders.
 */
module QuizBuilder {
  import opened Wrappers
  import opened Text
  import opened Seqs
  import opened Draws
  import opened Sentences
  import opened Keywords

  /** A question as the builder emits it. */
  datatype QuizItem =
    | Objective(q: string, options: seq<string>, answerIndex: int, answerText: Option<string>)
    | Subjective(q: string, answer: string)

  /** `"option" + str(n)`. */
  function OptionName(n: nat): string {
    "option" + NatToString(n)
  }

  /** A filler option `option1` … `option99`. */
  predicate IsOptionName(d: string) {
    exists n :: 1 <= n <= 99 && d == OptionName(n)
  }

  /** Option names are lower case. */
  lemma OptionNameLower(n: nat)
    ensures IsLowerCase(OptionName(n))
  {
    var d := OptionName(n);
    assert forall i :: 6 <= i < |d| ==> d[i] == NatToString(n)[i - 6];
  }

  lemma OptionNameTrimmed(n: nat)
    ensures Trimmed(OptionName(n))
  {
    var d := OptionName(n);
    var digits := NatToString(n);
    assert d[|d| - 1] == digits[|digits| - 1];
  }

  /** The filler `"option" + str(random.randint(1, 99))` that a drawn value names. */
  function DrawnName(v: nat): string {
    OptionName(1 + v % 99)
  }

  /** The first `m` draws are there and give `m` different `randint(1, 99)` outcomes. */
  predicate FreshDraws(rng: Stream, m: nat) {
    m <= |rng| && forall i, j :: 0 <= i < j < m ==> rng[i] % 99 != rng[j] % 99
  }

  /**
   * No two draws less than three apart give the same `randint(1, 99)` outcome:
   * any three consecutive draws are fresh, enough for the fillers of one question.
   */
  predicate NoCloseRepeats(rng: Stream) {
    forall i, j :: 0 <= i < j < |rng| && j < i + 3 ==> rng[i] % 99 != rng[j] % 99
  }

  /** Any suffix of a stream without close repeats has none either. */
  lemma NoCloseRepeatsSuffix(rng: Stream, k: nat)
    requires NoCloseRepeats(rng) && k <= |rng|
    ensures NoCloseRepeats(rng[k..])
  {
    forall i, j | 0 <= i < j < |rng| - k && j < i + 3
      ensures rng[k..][i] % 99 != rng[k..][j] % 99
    {
      assert rng[k..][i] == rng[k + i] && rng[k..][j] == rng[k + j];
    }
  }

  /** Up to three draws of a stream without close repeats are fresh. */
  lemma NoCloseRepeatsFresh(rng: Stream, m: nat)
    requires NoCloseRepeats(rng) && m <= 3 && m <= |rng|
    ensures FreshDraws(rng, m)
  {
  }

  /** Different outcomes name different fillers. */
  lemma DrawnNamesDiffer(u: nat, v: nat)
    requires u % 99 != v % 99
    ensures DrawnName(u) != DrawnName(v)
  {
    var a, b := 1 + u % 99, 1 + v % 99;
    assert OptionName(a)[6..] == NatToString(a);
    assert OptionName(b)[6..] == NatToString(b);
    DigitsValueOfNatToString(a);
    DigitsValueOfNatToString(b);
  }

  /** A text that does not end in a digit is no filler name. */
  lemma NotOptionName(x: string)
    requires x == [] || !IsAsciiDigit(x[|x| - 1])
    ensures !IsOptionName(x)
  {
  }

  /** No entry is, lower-cased, a filler name. */
  predicate NoFillerLike(xs: seq<string>) {
    forall x :: x in xs ==> !IsOptionName(Lower(x))
  }

  /** A lower-case filler name is among neither the entries nor the answer. */
  lemma FillerIsNew(xs: seq<string>, d: string)
    requires NoFillerLike(xs) && IsOptionName(d) && Lower(d) == d
    ensures d !in xs
  {
  }

  /** Lower-casing a word of letters and hyphens gives no filler name. */
  lemma WordNotFillerLike(w: string)
    requires forall i :: 0 <= i < |w| ==> IsWordChar(w[i])
    ensures !IsOptionName(Lower(w))
  {
    NotOptionName(Lower(w));
  }

  /** No two entries equal. */
  predicate AllDistinct(ds: seq<string>) {
    forall i, j :: 0 <= i < j < |ds| ==> ds[i] != ds[j]
  }

  /**
   * The keyword loop of `_choose_distractors`: each keyword, lower-cased, is
   * taken unless it is the answer (ignoring case) or already taken, until
   * `needed` are taken.
   */
  function Pick(ws: seq<string>, answer: string, needed: nat, acc: seq<string>): (r: seq<string>)
    ensures |acc| <= needed ==> |r| <= needed
    decreases |ws|
  {
    if |acc| >= needed || ws == [] then acc
    else
      var lw := Lower(ws[0]);
      Pick(ws[1..], answer, needed, if lw != Lower(answer) && lw !in acc then acc + [lw] else acc)
  }

  function KeywordDistractors(ws: seq<string>, answer: string, needed: nat): (r: seq<string>)
    ensures |r| <= needed
  {
    Pick(ws, answer, needed, [])
  }

  /** The keyword loop keeps what it has in front. */
  lemma {:induction false} PickPrefix(ws: seq<string>, answer: string, needed: nat, acc: seq<string>)
    ensures var r := Pick(ws, answer, needed, acc); |acc| <= |r| && r[..|acc|] == acc
    decreases |ws|
  {
    if |acc| < needed && ws != [] {
      var lw := Lower(ws[0]);
      var next := if lw != Lower(answer) && lw !in acc then acc + [lw] else acc;
      PickPrefix(ws[1..], answer, needed, next);
      var r := Pick(ws[1..], answer, needed, next);
      assert r[..|acc|] == r[..|next|][..|acc|];
    }
  }

  /** The keyword loop adds lower-cased keywords in keyword order. */
  lemma {:induction false} PickOrder(ws: seq<string>, answer: string, needed: nat, acc: seq<string>)
    ensures var r := Pick(ws, answer, needed, acc);
      |acc| <= |r| && IsSubsequence(r[|acc|..], Map(ws, Lower))
    decreases |ws|
  {
    var r := Pick(ws, answer, needed, acc);
    PickPrefix(ws, answer, needed, acc);
    if |acc| >= needed || ws == [] {
      assert r[|acc|..] == [];
    } else {
      var lw := Lower(ws[0]);
      var taken := lw != Lower(answer) && lw !in acc;
      var next := if taken then acc + [lw] else acc;
      assert r == Pick(ws[1..], answer, needed, next);
      PickOrder(ws[1..], answer, needed, next);
      var m := Map(ws, Lower);
      assert m[1..] == Map(ws[1..], Lower);
      var tail := r[|acc|..];
      if taken {
        PickPrefix(ws[1..], answer, needed, next);
        assert tail[0] == r[..|next|][|acc|] == lw == m[0];
        assert tail[1..] == r[|next|..];
      } else {
        SubsequenceExtend(tail, m);
      }
    }
  }

  /** The keyword distractors are lower-cased keywords in the keywords' order. */
  lemma KeywordOrder(ws: seq<string>, answer: string, needed: nat)
    ensures IsSubsequence(KeywordDistractors(ws, answer, needed), Map(ws, Lower))
  {
    var r := KeywordDistractors(ws, answer, needed);
    PickOrder(ws, answer, needed, []);
    assert r[0..] == r;
  }

  /** What `_choose_distractors` promises about its result `ds`. */
  predicate Distractors(ds: seq<string>, keywords: seq<string>, answer: string, needed: nat) {
    var kd := KeywordDistractors(keywords, answer, needed);
    && |ds| == needed && |kd| <= needed && ds[..|kd|] == kd
    && AllDistinct(ds)
    && LowerAndNotAnswer(ds, answer)
    && (forall i :: 0 <= i < |kd| ==> kd[i] in Map(keywords, Lower))
    && IsSubsequence(kd, Map(keywords, Lower))
    && OptionNamesFrom(ds, |kd|)
  }

  /** Distinct lower-cased keywords of `all`, none equal to the answer ignoring case. */
  predicate PickedShape(acc: seq<string>, answer: string, all: seq<string>) {
    && AllDistinct(acc) && LowerAndNotAnswer(acc, answer)
    && forall i :: 0 <= i < |acc| ==> acc[i] in Map(all, Lower)
  }

  /** Taking one more lower-cased keyword that is new and not the answer keeps the shape. */
  lemma PickNextShape(acc: seq<string>, lw: string, answer: string, all: seq<string>)
    requires PickedShape(acc, answer, all) && IsLowerCase(lw) && lw in Map(all, Lower)
    ensures PickedShape(if lw != Lower(answer) && lw !in acc then acc + [lw] else acc, answer, all)
  {
    if lw != Lower(answer) && lw !in acc {
      AppendDistinct(acc, lw, 0);
      AppendNotAnswer(acc, lw, answer);
      AppendMembers(acc, lw, Map(all, Lower));
    }
  }

  lemma AppendNotAnswer(acc: seq<string>, lw: string, answer: string)
    requires LowerAndNotAnswer(acc, answer) && IsLowerCase(lw) && lw != Lower(answer)
    ensures LowerAndNotAnswer(acc + [lw], answer)
  {
    var r := acc + [lw];
    forall j | 0 <= j < |r|
      ensures IsLowerCase(r[j]) && r[j] != Lower(answer)
    {
      if j < |acc| {
        assert r[j] == acc[j];
      }
    }
  }

  /** Appending a member keeps every entry a member. */
  lemma AppendMembers<T>(acc: seq<T>, x: T, all: seq<T>)
    requires (forall i :: 0 <= i < |acc| ==> acc[i] in all) && x in all
    ensures forall i :: 0 <= i < |acc + [x]| ==> (acc + [x])[i] in all
  {
    var r := acc + [x];
    forall i | 0 <= i < |r|
      ensures r[i] in all
    {
      if i < |acc| {
        assert r[i] == acc[i];
      }
    }
  }

  /** The keyword loop only adds lower-cased keywords that differ from the answer and from each other. */
  lemma {:induction false} PickShape(ws: seq<string>, all: seq<string>, answer: string, needed: nat, acc: seq<string>)
    requires |acc| <= needed && PickedShape(acc, answer, all)
    requires forall w :: w in ws ==> w in all
    ensures var r := Pick(ws, answer, needed, acc);
      |r| <= needed && |acc| <= |r| && r[..|acc|] == acc && PickedShape(r, answer, all)
    decreases |ws|
  {
    if |acc| < needed && ws != [] {
      var lw := Lower(ws[0]);
      var next := if lw != Lower(answer) && lw !in acc then acc + [lw] else acc;
      assert PickedShape(next, answer, all) by {
        LowerIsLowerCase(ws[0]);
        assert ws[0] in all;
        var k :| 0 <= k < |all| && all[k] == ws[0];
        assert Map(all, Lower)[k] == lw;
        PickNextShape(acc, lw, answer, all);
      }
      assert forall w :: w in ws[1..] ==> w in all by {
        assert forall w :: w in ws[1..] ==> w in ws;
      }
      PickShape(ws[1..], all, answer, needed, next);
      PickStep(ws, answer, needed, acc);
      var r := Pick(ws[1..], answer, needed, next);
      assert r[..|acc|] == acc by {
        assert r[..|next|] == next;
        assert r[..|acc|] == next[..|acc|];
      }
    }
  }

  /**
   * `_choose_distractors(keywords, answer_word, needed)`, drawing the
   * `optionN` fillers from `rng`.
   */
  method ChooseDistractors(keywords: seq<string>, answer: string, needed: nat, rng: Stream)
    returns (ds: Option<seq<string>>, rest: Stream)
    ensures Consumed(rest, rng)
    ensures ds.None? ==> rest == []
    ensures ds.Some? ==> Distractors(ds.value, keywords, answer, needed)
    ensures |KeywordDistractors(keywords, answer, needed)| == needed ==>
      ds == Some(KeywordDistractors(keywords, answer, needed)) && rest == rng
    ensures var kd := KeywordDistractors(keywords, answer, needed);
      FreshDraws(rng, needed - |kd|) && NoFillerLike(keywords + [answer]) ==>
      ds == Some(kd + Map(rng[..needed - |kd|], DrawnName)) && rest == rng[needed - |kd|..]
  {
    var picked := KeywordPicks(keywords, answer, needed);
    if NoFillerLike(keywords + [answer]) {
      PickedNoFillerLike(picked, keywords, answer);
    }
    ds, rest := FillDistractors(picked, answer, needed, rng);
    if ds.Some? {
      DistractorsOf(picked, ds.value, keywords, answer, needed);
    }
  }

  /** Lower-cased keywords are no filler names when the keywords lower-cased are none. */
  lemma PickedNoFillerLike(picked: seq<string>, keywords: seq<string>, answer: string)
    requires forall i :: 0 <= i < |picked| ==> picked[i] in Map(keywords, Lower)
    requires NoFillerLike(keywords + [answer])
    ensures NoFillerLike(picked + [answer])
  {
    forall x | x in picked + [answer]
      ensures !IsOptionName(Lower(x))
    {
      if x in picked {
        var i :| 0 <= i < |picked| && picked[i] == x;
        var k :| 0 <= k < |keywords| && Map(keywords, Lower)[k] == x;
        LowerIdempotent(keywords[k]);
        assert keywords[k] in keywords + [answer];
      } else {
        assert x == answer;
        assert answer in keywords + [answer];
      }
    }
  }

  /** The keyword loop of `_choose_distractors`. */
  method KeywordPicks(keywords: seq<string>, answer: string, needed: nat) returns (picked: seq<string>)
    ensures picked == KeywordDistractors(keywords, answer, needed)
    ensures IsSubsequence(picked, Map(keywords, Lower)) && PickedShape(picked, answer, keywords)
  {
    picked := [];
    var i := 0;
    while i < |keywords| && |picked| < needed
      invariant 0 <= i <= |keywords|
      invariant Pick(keywords[i..], answer, needed, picked) == KeywordDistractors(keywords, answer, needed)
    {
      var lw := Lower(keywords[i]);
      PickStep(keywords[i..], answer, needed, picked);
      assert keywords[i..][1..] == keywords[i + 1..];
      if lw != Lower(answer) && lw !in picked {
        picked := picked + [lw];
      }
      i := i + 1;
    }
    KeywordOrder(keywords, answer, needed);
    PickShape(keywords, keywords, answer, needed, []);
  }

  /** The keyword picks completed by fillers are distractors. */
  lemma DistractorsOf(picked: seq<string>, ds: seq<string>, keywords: seq<string>, answer: string, needed: nat)
    requires picked == KeywordDistractors(keywords, answer, needed)
    requires |picked| <= needed && PickedShape(picked, answer, keywords)
    requires IsSubsequence(picked, Map(keywords, Lower))
    requires |ds| == needed && ds[..|picked|] == picked && AllDistinct(ds)
    requires LowerAndNotAnswer(ds, answer) && OptionNamesFrom(ds, |picked|)
    ensures Distractors(ds, keywords, answer, needed)
  {
  }

  /** One step of the keyword loop. */
  lemma PickStep(ws: seq<string>, answer: string, needed: nat, acc: seq<string>)
    requires ws != [] && |acc| < needed
    ensures var lw := Lower(ws[0]);
      Pick(ws, answer, needed, acc)
      == Pick(ws[1..], answer, needed, if lw != Lower(answer) && lw !in acc then acc + [lw] else acc)
  {
  }

  /** Every entry is lower case and differs from the lower-cased answer. */
  predicate LowerAndNotAnswer(xs: seq<string>, answer: string) {
    forall j :: 0 <= j < |xs| ==> IsLowerCase(xs[j]) && xs[j] != Lower(answer)
  }

  /** Every entry from position `k` on is a filler name. */
  predicate OptionNamesFrom(xs: seq<string>, k: nat) {
    forall j :: k <= j < |xs| ==> IsOptionName(xs[j])
  }

  /**
   * The filler loop of `_choose_distractors`, from the list so far and the draws
   * left: each draw names a candidate `optionN`, taken unless it is already in
   * the list or equal to the answer ignoring case, until the list has `needed`
   * entries; then the list cut to `needed`. `None` when the draws run out first.
   */
  function Fill(result: seq<string>, answer: string, needed: nat, rest: Stream): (r: (Option<seq<string>>, Stream))
    decreases |rest|
  {
    if |result| >= needed then (Some(result[..needed]), rest)
    else if rest == [] then (None, [])
    else
      var cand := DrawnName(rest[0]);
      Fill(if cand !in result && Lower(cand) != Lower(answer) then result + [cand] else result, answer, needed, rest[1..])
  }

  /** The filling reads a prefix of the draws, and all of them when it fails. */
  lemma {:induction false} FillConsumed(result: seq<string>, answer: string, needed: nat, rest: Stream)
    ensures var r := Fill(result, answer, needed, rest);
      Consumed(r.1, rest) && (r.0.None? ==> r.1 == [])
    decreases |rest|
  {
    if |result| < needed && rest != [] {
      var cand := DrawnName(rest[0]);
      var next := if cand !in result && Lower(cand) != Lower(answer) then result + [cand] else result;
      FillConsumed(next, answer, needed, rest[1..]);
      ConsumedTrans(Fill(next, answer, needed, rest[1..]).1, rest[1..], rest);
    }
  }

  /**
   * The filler loop of `_choose_distractors`: `optionN` names are drawn until
   * `needed` distractors are there, skipping a name already taken or equal to the
   * answer ignoring case.
   */
  method FillDistractors(picked: seq<string>, answer: string, needed: nat, rng: Stream)
    returns (ds: Option<seq<string>>, rest: Stream)
    requires |picked| <= needed && AllDistinct(picked) && LowerAndNotAnswer(picked, answer)
    ensures (ds, rest) == Fill(picked, answer, needed, rng)
    ensures Consumed(rest, rng) && (ds.None? ==> rest == [])
    ensures ds.Some? ==> |ds.value| == needed && ds.value[..|picked|] == picked && AllDistinct(ds.value)
    ensures ds.Some? ==> LowerAndNotAnswer(ds.value, answer) && OptionNamesFrom(ds.value, |picked|)
    ensures |picked| == needed ==> ds == Some(picked) && rest == rng
    ensures FreshDraws(rng, needed - |picked|) && NoFillerLike(picked + [answer]) ==>
      ds == Some(picked + Map(rng[..needed - |picked|], DrawnName)) && rest == rng[needed - |picked|..]
  {
    var result := picked;
    rest := rng;
    while |result| < needed && rest != []
      invariant Fill(result, answer, needed, rest) == Fill(picked, answer, needed, rng)
      decreases |rest|
    {
      var cand := OptionName(1 + rest[0] % 99);
      if cand !in result && Lower(cand) != Lower(answer) {
        result := result + [cand];
      }
      rest := rest[1..];
    }
    if |result| < needed {
      ds, rest := None, [];
    } else {
      ds := Some(result[..needed]);
    }
    assert (ds, rest) == Fill(picked, answer, needed, rng);
    FillConsumed(picked, answer, needed, rng);
    assert ds.Some? ==> (|ds.value| == needed && ds.value[..|picked|] == picked && AllDistinct(ds.value)
        && LowerAndNotAnswer(ds.value, answer) && OptionNamesFrom(ds.value, |picked|)) by {
      FillShape(picked, |picked|, answer, needed, rng);
    }
    assert |picked| == needed ==> ds == Some(picked) && rest == rng by {
      if |picked| == needed {
        assert picked[..needed] == picked;
      }
    }
    assert FreshDraws(rng, needed - |picked|) && NoFillerLike(picked + [answer]) ==>
        ds == Some(picked + Map(rng[..needed - |picked|], DrawnName)) && rest == rng[needed - |picked|..] by {
      if FreshDraws(rng, needed - |picked|) && NoFillerLike(picked + [answer]) {
        DrawnNotNamed(picked, answer, rng, needed - |picked|);
        FreshTaken(picked, answer, rng, needed - |picked|);
        FillTaken(picked, answer, needed, rng, needed - |picked|);
      }
    }
  }

  /**
   * Whatever the draws, a completed filling has exactly `needed` entries, keeps the
   * list so far in front, and keeps its entries distinct, lower case, other than the
   * answer and, from position `k` on, filler names.
   */
  lemma {:induction false} FillShape(result: seq<string>, k: nat, answer: string, needed: nat, rest: Stream)
    requires k <= |result| <= needed && AllDistinct(result)
    requires LowerAndNotAnswer(result, answer) && OptionNamesFrom(result, k)
    ensures var r := Fill(result, answer, needed, rest);
      r.0.Some? ==>
        && |r.0.value| == needed && r.0.value[..|result|] == result && AllDistinct(r.0.value)
        && LowerAndNotAnswer(r.0.value, answer) && OptionNamesFrom(r.0.value, k)
    decreases |rest|
  {
    if |result| < needed && rest != [] {
      var cand := DrawnName(rest[0]);
      if cand !in result && Lower(cand) != Lower(answer) {
        DrawnShape(rest[0]);
        AppendDistinct(result, cand, k);
        AppendFiller(result, cand, answer, k);
        FillShape(result + [cand], k, answer, needed, rest[1..]);
        var r := Fill(result + [cand], answer, needed, rest[1..]);
        if r.0.Some? {
          assert r.0.value[..|result|] == r.0.value[..|result| + 1][..|result|];
        }
      } else {
        FillShape(result, k, answer, needed, rest[1..]);
      }
    } else if |result| >= needed {
      assert result[..needed] == result;
    }
  }

  /**
   * Each of the first `m` draws names something not yet taken and other than the
   * answer, ignoring case, counting the names taken before it.
   */
  ghost predicate TakesAll(result: seq<string>, answer: string, rest: Stream, m: nat)
    decreases m
  {
    m == 0 || (
      && rest != []
      && DrawnName(rest[0]) !in result && Lower(DrawnName(rest[0])) != Lower(answer)
      && TakesAll(result + [DrawnName(rest[0])], answer, rest[1..], m - 1))
  }

  /** When the next `m` draws are all taken, the filling reads exactly those, in the order drawn. */
  lemma {:induction false} FillTaken(result: seq<string>, answer: string, needed: nat, rest: Stream, m: nat)
    requires |result| + m == needed && m <= |rest| && TakesAll(result, answer, rest, m)
    ensures Fill(result, answer, needed, rest) == (Some(result + Map(rest[..m], DrawnName)), rest[m..])
    decreases m
  {
    if m == 0 {
      assert result[..needed] == result + Map(rest[..0], DrawnName);
    } else {
      var cand := DrawnName(rest[0]);
      FillTaken(result + [cand], answer, needed, rest[1..], m - 1);
      assert result + Map(rest[..m], DrawnName) == (result + [cand]) + Map(rest[1..][..m - 1], DrawnName)
          && rest[1..][m - 1..] == rest[m..] by {
        MapShift(result, rest, m, DrawnName);
      }
    }
  }

  /** Fresh draws, none naming an entry or the answer, are all taken. */
  lemma {:induction false} FreshTaken(result: seq<string>, answer: string, rest: Stream, m: nat)
    requires FreshDraws(rest, m)
    requires forall j :: 0 <= j < m ==> DrawnName(rest[j]) !in result && Lower(DrawnName(rest[j])) != Lower(answer)
    ensures TakesAll(result, answer, rest, m)
    decreases m
  {
    if m > 0 {
      FillFreshStep(result, answer, rest, m);
      FreshTaken(result + [DrawnName(rest[0])], answer, rest[1..], m - 1);
    }
  }

  /** After taking the first of the fresh draws, the rest are still fresh and name nothing taken. */
  lemma FillFreshStep(result: seq<string>, answer: string, rest: Stream, m: nat)
    requires 0 < m && FreshDraws(rest, m)
    requires forall j :: 0 <= j < m ==> DrawnName(rest[j]) !in result && Lower(DrawnName(rest[j])) != Lower(answer)
    ensures var next := result + [DrawnName(rest[0])];
      FreshDraws(rest[1..], m - 1) && forall j :: 0 <= j < m - 1 ==>
        DrawnName(rest[1..][j]) !in next && Lower(DrawnName(rest[1..][j])) != Lower(answer)
  {
    var next := result + [DrawnName(rest[0])];
    forall j | 0 <= j < m - 1
      ensures DrawnName(rest[1..][j]) !in next && Lower(DrawnName(rest[1..][j])) != Lower(answer)
    {
      TailIndex(rest, j);
      DrawnNamesDiffer(rest[0], rest[j + 1]);
    }
    FreshDrawsTail(rest, m);
  }

  /** Dropping the first of `m` fresh draws leaves `m - 1` fresh draws. */
  lemma FreshDrawsTail(rng: Stream, m: nat)
    requires FreshDraws(rng, m) && m > 0
    ensures FreshDraws(rng[1..], m - 1)
  {
    forall i, j | 0 <= i < j < m - 1
      ensures rng[1..][i] % 99 != rng[1..][j] % 99
    {
      assert rng[1..][i] == rng[i + 1] && rng[1..][j] == rng[j + 1];
    }
  }

  /** With no filler-like entry or answer, no draw names an entry or the answer. */
  lemma DrawnNotNamed(picked: seq<string>, answer: string, rng: Stream, m: nat)
    requires m <= |rng| && NoFillerLike(picked + [answer])
    ensures forall j :: 0 <= j < m ==> DrawnName(rng[j]) !in picked && Lower(DrawnName(rng[j])) != Lower(answer)
  {
    forall j | 0 <= j < m
      ensures DrawnName(rng[j]) !in picked && Lower(DrawnName(rng[j])) != Lower(answer)
    {
      DrawnIsNew(picked, answer, rng[j]);
    }
  }


  /** A drawn filler is none of the entries and not the answer, ignoring case. */
  lemma DrawnIsNew(xs: seq<string>, answer: string, v: nat)
    requires NoFillerLike(xs + [answer])
    ensures DrawnName(v) !in xs && Lower(DrawnName(v)) != Lower(answer)
    ensures IsOptionName(DrawnName(v)) && Lower(DrawnName(v)) == DrawnName(v)
  {
    var cand := DrawnName(v);
    DrawnShape(v);
    FillerIsNew(xs + [answer], cand);
    assert answer in xs + [answer];
  }


  lemma ConsumedStep(rest: Stream, rng: Stream)
    requires Consumed(rest, rng) && rest != []
    ensures Consumed(rest[1..], rng)
  {
  }

  /** Appending a fresh entry keeps the entries distinct and the prefix in place. */
  lemma AppendDistinct(result: seq<string>, cand: string, k: nat)
    requires k <= |result| && AllDistinct(result) && cand !in result
    ensures AllDistinct(result + [cand]) && (result + [cand])[..k] == result[..k]
  {
  }

  /** Appending a lower-case filler name other than the answer keeps both shape invariants. */
  lemma AppendFiller(result: seq<string>, cand: string, answer: string, k: nat)
    requires k <= |result| && LowerAndNotAnswer(result, answer) && OptionNamesFrom(result, k)
    requires IsLowerCase(cand) && Lower(cand) != Lower(answer) && IsOptionName(cand)
    ensures LowerAndNotAnswer(result + [cand], answer) && OptionNamesFrom(result + [cand], k)
  {
    AppendLower(result, cand, answer);
    AppendName(result, cand, k);
  }

  lemma AppendLower(result: seq<string>, cand: string, answer: string)
    requires LowerAndNotAnswer(result, answer) && IsLowerCase(cand) && Lower(cand) != Lower(answer)
    ensures LowerAndNotAnswer(result + [cand], answer)
  {
    LowerNoUpper(cand);
    AppendNotAnswer(result, cand, answer);
  }

  lemma AppendName(result: seq<string>, cand: string, k: nat)
    requires k <= |result| && OptionNamesFrom(result, k) && IsOptionName(cand)
    ensures OptionNamesFrom(result + [cand], k)
  {
    var r := result + [cand];
    forall j | k <= j < |r|
      ensures IsOptionName(r[j])
    {
      if j < |result| {
        assert r[j] == result[j];
      }
    }
  }

  /** The extra stop words `_make_objective_from_sentence` passes to `_keywords`. */
  const ObjectiveStop: set<string> := {
    "that", "this", "these", "those", "using", "such", "into", "than", "also", "they", "their",
    "there", "been", "being", "very", "over", "under", "across", "based"
  }

  /** The `needed=3` that `_make_objective_from_sentence` passes to `_choose_distractors`. */
  const DistractorCount: nat := 3

  /** The options of a question for which no answer word was found. */
  const LetterOptions: seq<string> := ["A", "B", "C", "D"]

  /** Python truthiness of an optional string. */
  predicate Truthy(o: Option<string>) { o.Some? && o.value != [] }

  /** The first keyword of at least 4 characters: the `for k in keys` loop. */
  function FirstLong(keys: seq<string>): (r: Option<string>)
    ensures r.Some? ==> r.value in keys && |r.value| >= 4
    ensures r.None? ==> forall k :: k in keys ==> |k| < 4
  {
    if keys == [] then None else if |keys[0]| >= 4 then Some(keys[0]) else FirstLong(keys[1..])
  }

  /** The length of the run of ASCII letters at the start of `s`. */
  function LetterRun(s: string): (n: nat)
    ensures n <= |s| && forall i :: 0 <= i < n ==> IsAsciiLetter(s[i])
    ensures n < |s| ==> !IsAsciiLetter(s[n])
  {
    if s != [] && IsAsciiLetter(s[0]) then 1 + LetterRun(s[1..]) else 0
  }

  /** `re.findall(r"[A-Za-z]{4,}", s)[0]`: the first run of four or more ASCII letters. */
  function FirstLetterRun(s: string): (r: Option<string>)
    ensures r.Some? ==> |r.value| >= 4 && forall i :: 0 <= i < |r.value| ==> IsAsciiLetter(r.value[i])
    decreases |s|
  {
    if s == [] then None
    else
      var n := LetterRun(s);
      if n >= 4 then Some(s[..n]) else FirstLetterRun(s[1..])
  }

  /** The keyword FirstLong finds is the first one of at least four characters. */
  lemma {:induction false} FirstLongIsFirst(keys: seq<string>, i: nat)
    requires i < |keys| && |keys[i]| >= 4
    requires forall j :: 0 <= j < i ==> |keys[j]| < 4
    ensures FirstLong(keys) == Some(keys[i])
  {
    if i > 0 {
      assert |keys[0]| < 4;
      assert forall j :: 0 <= j < i - 1 ==> keys[1..][j] == keys[j + 1];
      FirstLongIsFirst(keys[1..], i - 1);
    }
  }

  /**
   * The run FirstLetterRun finds is the whole letter run at the first position
   * where four or more letters start, as the leftmost greedy match is.
   */
  lemma FirstLetterRunIsFirst(s: string, i: nat)
    requires i <= |s| && LetterRun(s[i..]) >= 4
    requires forall j :: 0 <= j < i ==> LetterRun(s[j..]) < 4
    ensures FirstLetterRun(s) == Some(s[i..i + LetterRun(s[i..])])
  {
    FirstLetterRunFrom(s, i, 0);
    assert s[0..] == s;
  }

  /** FirstLetterRunIsFirst for the suffix from `k`, by induction on `i - k`. */
  lemma {:induction false} FirstLetterRunFrom(s: string, i: nat, k: nat)
    requires k <= i <= |s| && LetterRun(s[i..]) >= 4
    requires forall j :: k <= j < i ==> LetterRun(s[j..]) < 4
    ensures FirstLetterRun(s[k..]) == Some(s[i..i + LetterRun(s[i..])])
    decreases i - k
  {
    if k < i {
      FirstLetterRunFrom(s, i, k + 1);
      assert s[k..][1..] == s[k + 1..];
    } else {
      assert s[i..][..LetterRun(s[i..])] == s[i..i + LetterRun(s[i..])];
    }
  }

  /** The answer word of `_make_objective_from_sentence`. */
  function AnswerWord(s: string): Option<string> {
    AnswerFrom(Keywords.Keywords(s, 8, ObjectiveStop), s)
  }

  /** The answer word given the sentence's keywords `keys`. */
  function AnswerFrom(keys: seq<string>, s: string): Option<string> {
    var a1 := FirstLong(keys);
    var a2 := if !Truthy(a1) && keys != [] then Some(keys[0]) else a1;
    if !Truthy(a2) then FirstLetterRun(s) else a2
  }

  /** Each keyword is a lower-case token. */
  lemma KeywordIsToken(s: string, k: nat, extra: set<string>, w: string)
    requires w in Keywords.Keywords(s, k, extra)
    ensures IsLowerToken(w)
  {
    KeywordsAreTopRanked(s, k, extra);
  }

  /** Non-empty, letters and hyphens only. */
  predicate IsWord(a: string) {
    a != [] && forall i :: 0 <= i < |a| ==> IsWordChar(a[i])
  }

  /** An answer word is made of letters and hyphens. */
  lemma AnswerWordShape(s: string)
    requires Truthy(AnswerWord(s))
    ensures IsWord(AnswerWord(s).value)
  {
    var keys := Keywords.Keywords(s, 8, ObjectiveStop);
    var a1 := FirstLong(keys);
    var a2 := if !Truthy(a1) && keys != [] then Some(keys[0]) else a1;
    if Truthy(a2) {
      assert a2.value in keys;
      KeywordIsToken(s, 8, ObjectiveStop, a2.value);
    }
  }

  predicate IsWordAt(s: string, j: int) { 0 <= j < |s| && IsAsciiWord(s[j]) }

  /** The regex `\b` at position `i`. */
  predicate BoundaryAt(s: string, i: int) { IsWordAt(s, i - 1) != IsWordAt(s, i) }

  /** The answer, ignoring case, stands at position `i` as a whole word. */
  predicate MatchAt(s: string, w: string, i: nat) {
    i + |w| <= |s| && Lower(s[i..i + |w|]) == Lower(w) && BoundaryAt(s, i) && BoundaryAt(s, i + |w|)
  }

  function BlankFrom(s: string, w: string, i: nat): string
    requires i <= |s| && w != []
    decreases |s| - i
  {
    if i == |s| then []
    else if MatchAt(s, w, i) then "____" + BlankFrom(s, w, i + |w|)
    else [s[i]] + BlankFrom(s, w, i + 1)
  }

  /** `re.sub(rf"\b{re.escape(w)}\b", "____", s, flags=re.I)`. */
  function BlankOut(s: string, w: string): string
    requires w != []
  {
    BlankFrom(s, w, 0)
  }

  /** A sentence in which the answer never stands as a whole word is left as it is. */
  lemma {:induction false} BlankFromUntouched(s: string, w: string, i: nat)
    requires i <= |s| && w != []
    requires forall j :: i <= j < |s| ==> !MatchAt(s, w, j)
    ensures BlankFrom(s, w, i) == s[i..]
    decreases |s| - i
  {
    if i < |s| {
      BlankFromUntouched(s, w, i + 1);
      assert s[i..] == [s[i]] + s[i + 1..];
    }
  }

  lemma BlankOutUntouched(s: string, w: string)
    requires w != [] && forall j :: 0 <= j < |s| ==> !MatchAt(s, w, j)
    ensures BlankOut(s, w) == s
  {
    BlankFromUntouched(s, w, 0);
  }

  /** A sentence that is just the answer word becomes the blank. */
  lemma BlankOutWhole(w: string)
    requires w != [] && IsAsciiWord(w[0]) && IsAsciiWord(w[|w| - 1])
    ensures BlankOut(w, w) == "____"
  {
    assert w[0..|w|] == w;
    assert MatchAt(w, w, 0);
    assert BlankFrom(w, w, |w|) == [];
  }

  /** Case-insensitively distinct. */
  predicate CaseDistinct(xs: seq<string>) {
    forall i, j :: 0 <= i < j < |xs| ==> Lower(xs[i]) != Lower(xs[j])
  }

  function LowerSet(xs: seq<string>): set<string> {
    set x | x in xs :: Lower(x)
  }

  /** Non-empty, with no white space at either end: what `strip()` leaves of a non-blank text. */
  predicate Trimmed(x: string) {
    x != [] && !IsPySpace(x[0]) && !IsPySpace(x[|x| - 1])
  }

  lemma WordTrimmed(a: string)
    requires IsWord(a)
    ensures Trimmed(a)
  {
  }

  lemma TrimmedStrip(x: string)
    requires Trimmed(x)
    ensures PyStrip(x) == x
  {
    StripWithKeptEnds(x, IsPySpace);
  }

  /** Stripped, non-empty, case-insensitively distinct option texts. */
  predicate CleanOptions(xs: seq<string>) {
    CaseDistinct(xs) && forall i :: 0 <= i < |xs| ==> Trimmed(xs[i])
  }

  /**
   * The de-duplication loop of `_make_objective_from_sentence`: each option is
   * stripped and kept unless it is empty or equal, ignoring case, to one kept
   * before.
   */
  method UniqueOptions(opts: seq<string>) returns (uniq: seq<string>, seen: set<string>)
    ensures CleanOptions(uniq) && seen == LowerSet(uniq) && |uniq| <= |opts|
    ensures forall u :: u in uniq ==> u in Map(opts, PyStrip)
    ensures AllSeen(opts, |opts|, seen)
    ensures opts != [] && PyStrip(opts[0]) != [] ==> uniq != [] && uniq[0] == PyStrip(opts[0])
    ensures CleanOptions(opts) ==> uniq == opts
  {
    uniq, seen := [], {};
    var j := 0;
    while j < |opts|
      invariant j <= |opts| && UniqueState(opts, j, uniq, seen)
      invariant CleanOptions(opts) ==> uniq == opts[..j]
    {
      var oo := PyStrip(opts[j]);
      UniqueStep(opts, j, uniq, seen);
      assert CleanOptions(opts) ==> oo == opts[j] && oo != [] && Lower(oo) !in seen && uniq + [oo] == opts[..j + 1] by {
        if CleanOptions(opts) {
          CleanOptionKept(opts, j);
        }
      }
      if oo != [] && Lower(oo) !in seen {
        seen := seen + {Lower(oo)};
        uniq := uniq + [oo];
      }
      j := j + 1;
    }
  }

  /** Clean options are each their own stripped form and unseen before their position. */
  lemma CleanOptionKept(opts: seq<string>, j: nat)
    requires CleanOptions(opts) && j < |opts|
    ensures PyStrip(opts[j]) == opts[j] && opts[j] != []
    ensures Lower(opts[j]) !in LowerSet(opts[..j]) && opts[..j + 1] == opts[..j] + [opts[j]]
  {
    TrimmedStrip(opts[j]);
    forall x | x in opts[..j]
      ensures Lower(x) != Lower(opts[j])
    {
      var i :| 0 <= i < j && opts[i] == x;
    }
  }

  /** What the de-duplication loop keeps after looking at the first `j` options. */
  predicate UniqueState(opts: seq<string>, j: nat, uniq: seq<string>, seen: set<string>)
    requires j <= |opts|
  {
    && |uniq| <= j && CleanOptions(uniq) && seen == LowerSet(uniq)
    && (forall u :: u in uniq ==> u in Map(opts, PyStrip))
    && AllSeen(opts, j, seen)
    && (j > 0 && PyStrip(opts[0]) != [] ==> uniq != [] && uniq[0] == PyStrip(opts[0]))
  }

  /** One step of the de-duplication loop. */
  lemma UniqueStep(opts: seq<string>, j: nat, uniq: seq<string>, seen: set<string>)
    requires j < |opts| && UniqueState(opts, j, uniq, seen)
    ensures var oo := PyStrip(opts[j]);
      if oo != [] && Lower(oo) !in seen then UniqueState(opts, j + 1, uniq + [oo], seen + {Lower(oo)})
      else UniqueState(opts, j + 1, uniq, seen)
  {
    var oo := PyStrip(opts[j]);
    if oo != [] && Lower(oo) !in seen {
      StripTrimmed(opts[j]);
      KeepOption(uniq, oo);
      assert Map(opts, PyStrip)[j] == oo;
      SeenGrows(opts, j, seen, seen + {Lower(oo)});
      KeepFromOptions(uniq, oo, Map(opts, PyStrip));
    } else {
      SeenGrows(opts, j, seen, seen);
    }
  }

  lemma KeepFromOptions(uniq: seq<string>, oo: string, all: seq<string>)
    requires (forall u :: u in uniq ==> u in all) && oo in all
    ensures forall u :: u in uniq + [oo] ==> u in all
  {
  }

  /** Every non-blank option among the first `j` is seen, ignoring case. */
  predicate AllSeen(opts: seq<string>, j: nat, seen: set<string>)
    requires j <= |opts|
  {
    forall k :: 0 <= k < j && PyStrip(opts[k]) != [] ==> Lower(PyStrip(opts[k])) in seen
  }

  lemma SeenGrows(opts: seq<string>, j: nat, seen: set<string>, seen': set<string>)
    requires j < |opts| && AllSeen(opts, j, seen) && seen <= seen'
    requires PyStrip(opts[j]) != [] ==> Lower(PyStrip(opts[j])) in seen'
    ensures AllSeen(opts, j + 1, seen')
  {
  }

  /** A non-blank text, stripped, is trimmed. */
  lemma StripTrimmed(x: string)
    requires PyStrip(x) != []
    ensures Trimmed(PyStrip(x))
  {
  }

  /** Keeping a trimmed option unseen so far keeps the kept options clean. */
  lemma KeepOption(uniq: seq<string>, oo: string)
    requires CleanOptions(uniq) && Trimmed(oo) && Lower(oo) !in LowerSet(uniq)
    ensures CleanOptions(uniq + [oo]) && LowerSet(uniq + [oo]) == LowerSet(uniq) + {Lower(oo)}
  {
    var r := uniq + [oo];
    forall i, j | 0 <= i < j < |r|
      ensures Lower(r[i]) != Lower(r[j])
    {
      assert r[i] == uniq[i];
      if j == |uniq| {
        assert Lower(uniq[i]) in LowerSet(uniq);
      } else {
        assert r[j] == uniq[j];
      }
    }
    forall i | 0 <= i < |r|
      ensures Trimmed(r[i])
    {
      if i < |uniq| {
        assert r[i] == uniq[i];
      }
    }
  }

  /**
   * The filler loop of `_make_objective_from_sentence`, from the options so far and
   * the draws left: each draw names an `optionN`, taken unless one of the options
   * is that name ignoring case, until there are four options. `None` when the draws
   * run out first.
   */
  function Pad(p: seq<string>, rest: Stream): (r: (Option<seq<string>>, Stream))
    ensures Consumed(r.1, rest) && (r.0.None? ==> r.1 == [])
    decreases |rest|
  {
    if |p| >= 4 then (Some(p), rest)
    else if rest == [] then (None, [])
    else
      var filler := DrawnName(rest[0]);
      var r := Pad(if Lower(filler) !in LowerSet(p) then p + [filler] else p, rest[1..]);
      ConsumedTrans(r.1, rest[1..], rest);
      r
  }

  /**
   * The filler loop of `_make_objective_from_sentence`: `optionN` names are drawn
   * until there are four options, skipping a name already among them ignoring case.
   */
  method PadOptions(uniq: seq<string>, seen: set<string>, rng: Stream)
    returns (padded: Option<seq<string>>, rest: Stream)
    requires CleanOptions(uniq) && seen == LowerSet(uniq)
    ensures (padded, rest) == Pad(uniq, rng)
    ensures Consumed(rest, rng) && (padded.None? ==> rest == [])
    ensures padded.Some? ==> CleanOptions(padded.value) && |uniq| <= |padded.value|
    ensures padded.Some? ==> |padded.value| == (if |uniq| < 4 then 4 else |uniq|)
    ensures padded.Some? ==> padded.value[..|uniq|] == uniq && OptionNamesFrom(padded.value, |uniq|)
    ensures |uniq| >= 4 ==> padded == Some(uniq) && rest == rng
    ensures PadEnough(uniq, rng) ==>
      padded == Some(uniq + Map(rng[..PadCount(uniq)], DrawnName)) && rest == rng[PadCount(uniq)..]
  {
    var p := uniq;
    var sn := seen;
    rest := rng;
    while |p| < 4 && rest != []
      invariant sn == LowerSet(p)
      invariant Pad(p, rest) == Pad(uniq, rng)
      decreases |rest|
    {
      var filler := OptionName(1 + rest[0] % 99);
      if Lower(filler) !in sn {
        LowerSetSnoc(p, filler);
        p := p + [filler];
        sn := sn + {Lower(filler)};
      }
      rest := rest[1..];
    }
    if |p| < 4 {
      padded, rest := None, [];
    } else {
      padded := Some(p);
    }
    PadShape(uniq, |uniq|, rng);
    if PadEnough(uniq, rng) {
      DrawnNotSeen(uniq, rng, PadCount(uniq));
      FreshPadTaken(uniq, rng, PadCount(uniq));
      PadTaken(uniq, rng, PadCount(uniq));
    }
  }

  /** How many fillers the padding loop needs. */
  function PadCount(uniq: seq<string>): nat {
    if |uniq| < 4 then 4 - |uniq| else 0
  }

  /** Fresh draws for every filler needed, none of which can clash with a kept option. */
  predicate PadEnough(uniq: seq<string>, rng: Stream) {
    FreshDraws(rng, PadCount(uniq)) && NoFillerLike(uniq)
  }

  lemma LowerSetSnoc(p: seq<string>, x: string)
    ensures LowerSet(p + [x]) == LowerSet(p) + {Lower(x)}
  {
    assert forall y :: y in p + [x] <==> y in p || y == x;
  }

  /**
   * Whatever the draws, completed padding has four options (or the ones it was
   * given, when there were four already), keeps them in front, keeps the options
   * trimmed and distinct ignoring case, and adds only filler names.
   */
  lemma {:induction false} PadShape(p: seq<string>, k: nat, rest: Stream)
    requires CleanOptions(p) && k <= |p| && OptionNamesFrom(p, k)
    ensures var r := Pad(p, rest);
      r.0.Some? ==>
        && CleanOptions(r.0.value) && |r.0.value| == (if |p| < 4 then 4 else |p|)
        && r.0.value[..|p|] == p && OptionNamesFrom(r.0.value, k)
    decreases |rest|
  {
    if |p| < 4 && rest != [] {
      var filler := DrawnName(rest[0]);
      if Lower(filler) !in LowerSet(p) {
        assert CleanOptions(p + [filler]) && OptionNamesFrom(p + [filler], k) by {
          PadStep(p, k, rest[0]);
        }
        PadShape(p + [filler], k, rest[1..]);
        var r := Pad(p + [filler], rest[1..]);
        if r.0.Some? {
          assert r.0.value[..|p|] == r.0.value[..|p| + 1][..|p|];
        }
      } else {
        PadShape(p, k, rest[1..]);
      }
    } else if |p| >= 4 {
      assert p[..|p|] == p;
    }
  }

  /** Taking a filler no option has ignoring case keeps the options clean and the fillers at the end. */
  lemma PadStep(p: seq<string>, k: nat, v: nat)
    requires CleanOptions(p) && k <= |p| && OptionNamesFrom(p, k) && Lower(DrawnName(v)) !in LowerSet(p)
    ensures CleanOptions(p + [DrawnName(v)]) && OptionNamesFrom(p + [DrawnName(v)], k)
  {
    DrawnShape(v);
    OptionNameTrimmed(1 + v % 99);
    KeepOption(p, DrawnName(v));
    KeepFiller(p, DrawnName(v), k);
  }

  /**
   * Each of the first `m` draws names a filler that no option has ignoring case,
   * counting the fillers taken before it.
   */
  ghost predicate PadTakesAll(p: seq<string>, rest: Stream, m: nat)
    decreases m
  {
    m == 0 || (
      && rest != []
      && Lower(DrawnName(rest[0])) !in LowerSet(p)
      && PadTakesAll(p + [DrawnName(rest[0])], rest[1..], m - 1))
  }

  /** When the draws needed are all taken, the padding reads exactly those, in the order drawn. */
  lemma {:induction false} PadTaken(p: seq<string>, rest: Stream, m: nat)
    requires m == PadCount(p) && m <= |rest| && PadTakesAll(p, rest, m)
    ensures Pad(p, rest) == (Some(p + Map(rest[..m], DrawnName)), rest[m..])
    decreases m
  {
    if m == 0 {
      assert p == p + Map(rest[..0], DrawnName);
    } else {
      var filler := DrawnName(rest[0]);
      PadTaken(p + [filler], rest[1..], m - 1);
      assert p + Map(rest[..m], DrawnName) == (p + [filler]) + Map(rest[1..][..m - 1], DrawnName)
          && rest[1..][m - 1..] == rest[m..] by {
        MapShift(p, rest, m, DrawnName);
      }
    }
  }

  /** Fresh draws whose names no option has ignoring case are all taken. */
  lemma {:induction false} FreshPadTaken(p: seq<string>, rest: Stream, m: nat)
    requires FreshDraws(rest, m)
    requires forall j :: 0 <= j < m ==> DrawnName(rest[j]) !in LowerSet(p)
    ensures PadTakesAll(p, rest, m)
    decreases m
  {
    if m > 0 {
      assert Lower(DrawnName(rest[0])) !in LowerSet(p) by {
        DrawnShape(rest[0]);
      }
      PadFreshStep(p, rest, m);
      FreshPadTaken(p + [DrawnName(rest[0])], rest[1..], m - 1);
    }
  }

  /** After taking the first of the fresh draws, the rest are still fresh and name no option. */
  lemma PadFreshStep(p: seq<string>, rest: Stream, m: nat)
    requires 0 < m && FreshDraws(rest, m)
    requires forall j :: 0 <= j < m ==> DrawnName(rest[j]) !in LowerSet(p)
    ensures var next := p + [DrawnName(rest[0])];
      FreshDraws(rest[1..], m - 1) && forall j :: 0 <= j < m - 1 ==> DrawnName(rest[1..][j]) !in LowerSet(next)
  {
    var filler := DrawnName(rest[0]);
    DrawnShape(rest[0]);
    LowerSetSnoc(p, filler);
    forall j | 0 <= j < m - 1
      ensures DrawnName(rest[1..][j]) !in LowerSet(p + [filler])
    {
      TailIndex(rest, j);
      DrawnNamesDiffer(rest[0], rest[j + 1]);
    }
    FreshDrawsTail(rest, m);
  }

  /** With no filler-like option, no draw names an option ignoring case. */
  lemma DrawnNotSeen(uniq: seq<string>, rng: Stream, m: nat)
    requires m <= |rng| && NoFillerLike(uniq)
    ensures forall j :: 0 <= j < m ==> DrawnName(rng[j]) !in LowerSet(uniq)
  {
    forall j | 0 <= j < m
      ensures DrawnName(rng[j]) !in LowerSet(uniq)
    {
      DrawnShape(rng[j]);
      forall x | x in uniq
        ensures Lower(x) != DrawnName(rng[j])
      {
        assert !IsOptionName(Lower(x));
      }
    }
  }

  /** A drawn filler is a lower-case filler name. */
  lemma DrawnShape(v: nat)
    ensures IsOptionName(DrawnName(v)) && IsLowerCase(DrawnName(v)) && Lower(DrawnName(v)) == DrawnName(v)
  {
    var n := 1 + v % 99;
    assert 1 <= n <= 99 && DrawnName(v) == OptionName(n);
    OptionNameLower(n);
    LowerNoUpper(DrawnName(v));
  }

  /** Appending a filler name keeps the prefix and the filler tail. */
  lemma KeepFiller(p: seq<string>, filler: string, k: nat)
    requires k <= |p| && OptionNamesFrom(p, k) && IsOptionName(filler)
    ensures (p + [filler])[..k] == p[..k] && OptionNamesFrom(p + [filler], k)
  {
    var r := p + [filler];
    assert forall j :: 0 <= j < |p| ==> r[j] == p[j];
  }

  /** `next((i for i, p in enumerate(pairs) if p["is_answer"]), -1)`. */
  function FirstMarked<T>(ps: seq<(T, bool)>): (r: int)
    ensures -1 <= r < |ps|
    ensures r >= 0 ==> ps[r].1 && forall j :: 0 <= j < r ==> !ps[j].1
    ensures r == -1 ==> forall j :: 0 <= j < |ps| ==> !ps[j].1
  {
    if ps == [] then -1
    else if ps[0].1 then 0
    else
      var r := FirstMarked(ps[1..]);
      if r == -1 then -1 else r + 1
  }

  /** `t.strip().lower() == answer.strip().lower()`. */
  predicate IsAnswer(t: string, a: string) {
    Lower(PyStrip(t)) == Lower(PyStrip(a))
  }

  /** The `pairs` list: each option with whether it is the answer. */
  function Marked(opts: seq<string>, a: string): (r: seq<(string, bool)>)
    ensures |r| == |opts| && forall i :: 0 <= i < |r| ==> r[i] == (opts[i], IsAnswer(opts[i], a))
  {
    seq(|opts|, i requires 0 <= i < |opts| => (opts[i], IsAnswer(opts[i], a)))
  }

  function Texts(ps: seq<(string, bool)>): seq<string> {
    Map(ps, (p: (string, bool)) => p.0)
  }

  function PairKey(p: (string, bool)): string { Lower(p.0) }

  /** A permutation has the same length and the same members. */
  lemma PermutationMembers<T>(xs: seq<T>, ys: seq<T>)
    requires multiset(xs) == multiset(ys)
    ensures |xs| == |ys| && forall i :: 0 <= i < |xs| ==> xs[i] in ys
  {
    assert |multiset(xs)| == |multiset(ys)|;
    forall i | 0 <= i < |xs|
      ensures xs[i] in ys
    {
      assert xs[i] in multiset(ys);
    }
  }

  /** Shuffling clean options keeps them clean and drawn from the same options. */
  lemma ShuffledClean(four: seq<string>, a: string, sh: seq<(string, bool)>)
    requires CleanOptions(four)
    requires multiset(sh) == multiset(Marked(four, a)) && DistinctBy(sh, PairKey)
    ensures |Texts(sh)| == |four| && CleanOptions(Texts(sh)) && forall o :: o in Texts(sh) ==> o in four
  {
    var m := Marked(four, a);
    var options := Texts(sh);
    PermutationMembers(sh, m);
    forall i | 0 <= i < |options|
      ensures Trimmed(options[i]) && options[i] in four
    {
      assert sh[i] in m;
      var k :| 0 <= k < |m| && m[k] == sh[i];
      assert options[i] == four[k];
    }
    forall i, j | 0 <= i < j < |options|
      ensures Lower(options[i]) != Lower(options[j])
    {
      assert PairKey(sh[i]) != PairKey(sh[j]);
    }
  }

  /** When the answer is among the options, the first marked one is the answer, ignoring case. */
  lemma ShuffledAnswer(four: seq<string>, a: string, sh: seq<(string, bool)>)
    requires CleanOptions(four) && four != [] && four[0] == a
    requires multiset(sh) == multiset(Marked(four, a))
    ensures 0 <= FirstMarked(sh) < |sh| && Lower(Texts(sh)[FirstMarked(sh)]) == Lower(a)
  {
    var m := Marked(four, a);
    PermutationMembers(sh, m);
    PermutationMembers(m, sh);
    assert m[0].1;
    assert m[0] in sh;
    var ai := FirstMarked(sh);
    assert sh[ai] in m;
    var k :| 0 <= k < |m| && m[k] == sh[ai];
    TrimmedStrip(four[k]);
    TrimmedStrip(a);
  }

  /** Marking keeps options with distinct lower-cased texts apart. */
  lemma MarkedDistinct(four: seq<string>, a: string)
    requires CaseDistinct(four)
    ensures DistinctBy(Marked(four, a), PairKey)
  {
    var m := Marked(four, a);
    forall i, j | 0 <= i < j < |m|
      ensures PairKey(m[i]) != PairKey(m[j])
    {
      assert m[i].0 == four[i] && m[j].0 == four[j];
    }
  }

  /** A lower-cased keyword is its own stripped form and a keyword. */
  lemma KeywordOrigin(d: string, keys: seq<string>)
    requires d in Map(keys, Lower) && forall k :: k in keys ==> IsLowerToken(k)
    ensures PyStrip(d) == d && d in keys
  {
    var m :| 0 <= m < |keys| && Map(keys, Lower)[m] == d;
    var key := keys[m];
    assert IsLowerToken(key);
    LowerNoUpper(key);
    assert IsWord(key);
    WordTrimmed(key);
    TrimmedStrip(key);
  }

  /** A filler name is its own stripped form. */
  lemma FillerOrigin(d: string)
    requires IsOptionName(d)
    ensures PyStrip(d) == d
  {
    var n :| 1 <= n <= 99 && d == OptionName(n);
    OptionNameTrimmed(n);
    TrimmedStrip(d);
  }

  /** Every entry is a lower-cased keyword or a filler name. */
  predicate KeywordsOrFillers(ds: seq<string>, keys: seq<string>) {
    forall i :: 0 <= i < |ds| ==> ds[i] in Map(keys, Lower) || IsOptionName(ds[i])
  }

  lemma DistractorKinds(ds: seq<string>, keys: seq<string>, a: string, needed: nat)
    requires Distractors(ds, keys, a, needed)
    ensures KeywordsOrFillers(ds, keys)
  {
    var kd := KeywordDistractors(keys, a, needed);
    forall i | 0 <= i < |ds|
      ensures ds[i] in Map(keys, Lower) || IsOptionName(ds[i])
    {
      if i < |kd| {
        assert ds[i] == kd[i];
      }
    }
  }

  /** Each distractor is a keyword or a filler name, and its own stripped form. */
  lemma DistractorOrigin(d: string, keys: seq<string>)
    requires d in Map(keys, Lower) || IsOptionName(d)
    requires forall k :: k in keys ==> IsLowerToken(k)
    ensures PyStrip(d) == d && (d in keys || IsOptionName(d))
  {
    if d in Map(keys, Lower) {
      KeywordOrigin(d, keys);
    } else {
      FillerOrigin(d);
    }
  }

  /** The answer followed by chosen distractors are four candidates. */
  lemma AnswerAndDistractorsCandidates(a: string, ds: seq<string>, keys: seq<string>)
    requires IsWord(a) && forall k :: k in keys ==> IsLowerToken(k)
    requires Distractors(ds, keys, a, 3)
    ensures Candidates([a] + ds, a, keys)
  {
    AnswerAndDistractorsClean(a, ds, keys);
    DistractorKinds(ds, keys, a, 3);
    var opts := [a] + ds;
    forall o | o in opts
      ensures o == a || o in keys || IsOptionName(o)
    {
      var j :| 0 <= j < |opts| && opts[j] == o;
      if j > 0 {
        assert o == ds[j - 1];
        DistractorOrigin(ds[j - 1], keys);
      }
    }
  }

  /** The keywords of a sentence are lower-case tokens. */
  lemma KeywordsAreTokens(s: string, k: nat, extra: set<string>)
    ensures forall w :: w in Keywords.Keywords(s, k, extra) ==> IsLowerToken(w)
  {
    KeywordsAreTopRanked(s, k, extra);
  }

  /**
   * Four clean options, each the answer, a keyword or a filler name, and an
   * answer index pointing at the answer.
   */
  predicate GoodOptions(options: seq<string>, ai: int, a: string, keys: seq<string>) {
    && |options| == 4 && CleanOptions(options)
    && 0 <= ai < 4 && Lower(options[ai]) == Lower(a)
    && forall o :: o in options ==> o == a || o in keys || IsOptionName(o)
  }

  /** What `_make_objective_from_sentence` promises about a question built around the answer word `a`. */
  predicate GoodObjective(item: QuizItem, s: string, a: string, keys: seq<string>)
    requires a != []
  {
    && item.Objective?
    && GoodOptions(item.options, item.answerIndex, a, keys)
    && item.answerText == Some(item.options[item.answerIndex])
    && item.q == PyStrip(BlankOut(s, a))
  }

  /** Shuffling the marked candidates gives good options and the index of the answer. */
  lemma ShuffledGood(four: seq<string>, a: string, keys: seq<string>, rng: Stream)
    requires Candidates(four, a, keys) && |rng| >= 3
    ensures Shuffle(Marked(four, a), rng).Some?
    ensures var sh := Shuffle(Marked(four, a), rng).value.0;
      GoodOptions(Texts(sh), FirstMarked(sh), a, keys)
  {
    var pairs := Marked(four, a);
    MarkedDistinct(four, a);
    ShuffleDistinctBy(pairs, rng, PairKey);
    var sh := Shuffle(pairs, rng).value.0;
    ShuffledClean(four, a, sh);
    ShuffledAnswer(four, a, sh);
  }

  /**
   * The answer search of `_make_objective_from_sentence`: the first keyword of
   * four or more characters, else the first keyword, else the first run of four
   * or more letters.
   */
  method ChooseAnswer(s: string, keys: seq<string>) returns (answer: Option<string>)
    ensures answer == AnswerFrom(keys, s)
  {
    answer := None;
    var i := 0;
    while i < |keys|
      invariant 0 <= i <= |keys| && answer.None? && FirstLong(keys[i..]) == FirstLong(keys)
    {
      assert keys[i..][1..] == keys[i + 1..];
      if |keys[i]| >= 4 {
        answer := Some(keys[i]);
        break;
      }
      i := i + 1;
    }
    assert answer == FirstLong(keys);
    if !Truthy(answer) && keys != [] {
      answer := Some(keys[0]);
    }
    if !Truthy(answer) {
      answer := FirstLetterRun(s);
    }
  }

  /** Four clean options, the answer first, each the answer, a keyword or a filler name. */
  predicate Candidates(four: seq<string>, a: string, keys: seq<string>) {
    && |four| == 4 && CleanOptions(four) && four[0] == a
    && forall o :: o in four ==> o == a || o in keys || IsOptionName(o)
  }

  /**
   * The options of `_make_objective_from_sentence` before the shuffle: the
   * answer and three distractors, stripped and de-duplicated, padded with
   * filler names to four.
   */
  method CandidateOptions(a: string, keys: seq<string>, rng: Stream) returns (four: Option<seq<string>>, rest: Stream)
    requires IsWord(a) && forall k :: k in keys ==> IsLowerToken(k)
    ensures Consumed(rest, rng)
    ensures four.None? ==> rest == []
    ensures four.Some? ==> Candidates(four.value, a, keys)
    ensures FreshDraws(rng, FillerCount(keys, a)) ==>
      && four == Some([a] + KeywordDistractors(keys, a, DistractorCount) + Map(rng[..FillerCount(keys, a)], DrawnName))
      && rest == rng[FillerCount(keys, a)..]
  {
    assert NoFillerLike(keys + [a]) by {
      TokensNotFillerLike(keys, a);
    }
    var distract, r1 := ChooseDistractors(keys, a, DistractorCount, rng);
    ghost var kd := KeywordDistractors(keys, a, DistractorCount);
    ghost var enough := FreshDraws(rng, FillerCount(keys, a));
    assert enough ==> distract == Some(kd + Map(rng[..FillerCount(keys, a)], DrawnName)) && r1 == rng[FillerCount(keys, a)..];
    if distract.None? {
      return None, [];
    }
    var opts := [a] + distract.value;
    assert Candidates(opts, a, keys) by {
      AnswerAndDistractorsCandidates(a, distract.value, keys);
    }
    var uniq, seen := UniqueOptions(opts);
    var padded, r2 := PadOptions(uniq, seen, r1);
    assert padded.value[..4] == opts;
    four := Some(padded.value[..4]);
    rest := r2;
    assert enough ==> four == Some([a] + kd + Map(rng[..FillerCount(keys, a)], DrawnName)) by {
      if enough {
        AppendAssoc([a], kd, Map(rng[..FillerCount(keys, a)], DrawnName));
      }
    }
  }

  /** Keywords and an answer word, lower-cased, are no filler names. */
  lemma TokensNotFillerLike(keys: seq<string>, a: string)
    requires IsWord(a) && forall k :: k in keys ==> IsLowerToken(k)
    ensures NoFillerLike(keys + [a])
  {
    forall x | x in keys + [a]
      ensures !IsOptionName(Lower(x))
    {
      if x != a {
        assert x in keys;
        assert IsLowerToken(x);
      }
      WordNotFillerLike(x);
    }
  }

  /** A distractor is non-empty with no white space at either end. */
  lemma DistractorTrimmed(d: string, keys: seq<string>)
    requires d in Map(keys, Lower) || IsOptionName(d)
    requires forall k :: k in keys ==> IsLowerToken(k)
    ensures Trimmed(d)
  {
    if d in Map(keys, Lower) {
      KeywordOrigin(d, keys);
      WordTrimmed(d);
    } else {
      var n :| 1 <= n <= 99 && d == OptionName(n);
      OptionNameTrimmed(n);
    }
  }

  /** The answer followed by chosen distractors are already clean options. */
  lemma AnswerAndDistractorsClean(a: string, ds: seq<string>, keys: seq<string>)
    requires IsWord(a) && forall k :: k in keys ==> IsLowerToken(k)
    requires Distractors(ds, keys, a, 3)
    ensures CleanOptions([a] + ds)
  {
    DistractorKinds(ds, keys, a, 3);
    var opts := [a] + ds;
    assert forall i :: 0 <= i < |opts| ==> Trimmed(opts[i]) by {
      AnswerAndDistractorsTrimmed(a, ds, keys);
    }
    assert CaseDistinct(opts) by {
      AnswerAndDistractorsDistinct(a, ds);
    }
  }

  lemma AnswerAndDistractorsTrimmed(a: string, ds: seq<string>, keys: seq<string>)
    requires IsWord(a) && forall k :: k in keys ==> IsLowerToken(k)
    requires KeywordsOrFillers(ds, keys)
    ensures forall i :: 0 <= i < |[a] + ds| ==> Trimmed(([a] + ds)[i])
  {
    var opts := [a] + ds;
    forall i | 0 <= i < |opts|
      ensures Trimmed(opts[i])
    {
      if i == 0 {
        WordTrimmed(a);
      } else {
        assert opts[i] == ds[i - 1];
        DistractorTrimmed(ds[i - 1], keys);
      }
    }
  }

  lemma AnswerAndDistractorsDistinct(a: string, ds: seq<string>)
    requires AllDistinct(ds) && LowerAndNotAnswer(ds, a)
    ensures CaseDistinct([a] + ds)
  {
    var opts := [a] + ds;
    forall i, j | 0 <= i < j < |opts|
      ensures Lower(opts[i]) != Lower(opts[j])
    {
      assert opts[j] == ds[j - 1];
      LowerNoUpper(ds[j - 1]);
      if i > 0 {
        assert opts[i] == ds[i - 1];
        LowerNoUpper(ds[i - 1]);
      }
    }
  }

  /** How many filler draws the distractors need once the keywords have been used up. */
  function FillerCount(keys: seq<string>, a: string): nat {
    DistractorCount - |KeywordDistractors(keys, a, DistractorCount)|
  }

  /**
   * `_make_objective_from_sentence` once the answer word `a` is found: the answer
   * and three distractors, de-duplicated and padded, shuffled, the answer's
   * position looked up, and the answer blanked out of the sentence.
   */
  method ObjectiveFromAnswer(s: string, a: string, keys: seq<string>, rng: Stream)
    returns (item: Option<QuizItem>, rest: Stream)
    requires IsWord(a) && forall k :: k in keys ==> IsLowerToken(k)
    ensures Consumed(rest, rng)
    ensures item.None? ==> rest == []
    ensures item.Some? ==> GoodObjective(item.value, s, a, keys)
    ensures FreshDraws(rng, FillerCount(keys, a)) && |rng| >= FillerCount(keys, a) + 3 ==>
      item.Some? && rest == rng[FillerCount(keys, a) + 3..]
  {
    var four, r1 := CandidateOptions(a, keys, rng);
    if four.None? || |r1| < 3 {
      return None, [];
    }
    var pairs := Marked(four.value, a);
    ShuffledGood(four.value, a, keys, r1);
    var shuffled := Shuffle(pairs, r1).value;
    var sh := shuffled.0;
    var options := Texts(sh);
    var ai := FirstMarked(sh);
    var answerText := if ai == -1 then Some(a) else Some(options[ai]);
    var stem := BlankOut(s, a);
    item := Some(Objective(PyStrip(stem), options, ai, answerText));
    rest := shuffled.1;
    assert rest == r1[3..];
    ConsumedTrans(rest, r1, rng);
    assert FreshDraws(rng, FillerCount(keys, a)) ==> rest == rng[FillerCount(keys, a) + 3..];
  }

  /** The filler draws the question built from sentence `s` needs. */
  function ObjectiveFillers(s: string): nat {
    var a := AnswerWord(s);
    if Truthy(a) then FillerCount(Keywords.Keywords(s, 8, ObjectiveStop), a.value) else 0
  }

  /** How many draws the objective question of `s` reads: fillers, then the shuffle of four. */
  function ObjectiveDraws(s: string): nat {
    if Truthy(AnswerWord(s)) then ObjectiveFillers(s) + 3 else 0
  }

  /** One objective question never reads more than six draws. */
  lemma ObjectiveDrawsBound(s: string)
    ensures ObjectiveFillers(s) <= DistractorCount && ObjectiveDraws(s) <= 6
  {
  }

  /**
   * `_make_objective_from_sentence`: the sentence's keywords, the answer word
   * among them, and either the four-letter fallback question or the question
   * built around the answer word.
   */
  method MakeObjective(s: string, rng: Stream) returns (item: Option<QuizItem>, rest: Stream)
    ensures Consumed(rest, rng)
    ensures item.None? ==> rest == []
    ensures !Truthy(AnswerWord(s)) ==> item == Some(Objective(s, LetterOptions, -1, None)) && rest == rng
    ensures Truthy(AnswerWord(s)) && item.Some? ==>
      GoodObjective(item.value, s, AnswerWord(s).value, Keywords.Keywords(s, 8, ObjectiveStop))
    ensures Truthy(AnswerWord(s)) && FreshDraws(rng, ObjectiveFillers(s)) && |rng| >= ObjectiveFillers(s) + 3 ==>
      item.Some? && rest == rng[ObjectiveFillers(s) + 3..]
  {
    var keys := Keywords.Keywords(s, 8, ObjectiveStop);
    var answer := ChooseAnswer(s, keys);
    if !Truthy(answer) {
      return Some(Objective(s, LetterOptions, -1, None)), rng;
    }
    AnswerWordShape(s);
    KeywordsAreTokens(s, 8, ObjectiveStop);
    item, rest := ObjectiveFromAnswer(s, answer.value, keys, rng);
  }
}
