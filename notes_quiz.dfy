/**
 * Building a whole quiz from notes (`_build_quiz_from_notes` and
 * `_make_subjective_from_sentence` in backend/main.py): the sentences of the
 * notes are shuffled, a pool of them is turned into questions one by one, the
 * objective ones pass through a repair step, and placeholders fill the quiz up
 * to the requested count.
 */
module NotesQuiz {
  import opened Wrappers
  import opened Text
  import opened Seqs
  import opened Draws
  import opened Sentences
  import opened Keywords
  import opened QuizBuilder

  predicate IsDot(c: char) { c == '.' }

  const ExplainPrefix: string := "Explain briefly: "

  /** `_make_subjective_from_sentence(s)`. */
  function MakeSubjective(s: string): (item: QuizItem)
    ensures item.Subjective? && item.answer == s
  {
    Subjective(ExplainPrefix + Split(s, IsDot)[0] + ".", s)
  }

  /**
   * The question asks to explain the sentence up to its first full stop: it is
   * the prefix, the longest start of the sentence without a '.', and a '.'.
   */
  lemma SubjectiveQuestion(s: string)
    ensures var q := MakeSubjective(s).q; var n := |q| - |ExplainPrefix| - 1;
      && 0 <= n <= |s| && q == ExplainPrefix + s[..n] + "."
      && (forall i :: 0 <= i < n ==> s[i] != '.')
      && (n < |s| ==> s[n] == '.')
  {
    SplitHead(s, IsDot);
  }

  /** The question of a sentence without a full stop is the whole sentence. */
  lemma SubjectiveWhole(s: string)
    requires forall i :: 0 <= i < |s| ==> s[i] != '.'
    ensures MakeSubjective(s).q == ExplainPrefix + s + "."
  {
    SplitNone(s, IsDot);
  }

  /** Python truthiness of `answer_text`. */
  predicate HasAnswerText(item: QuizItem)
    requires item.Objective?
  {
    Truthy(item.answerText)
  }

  /**
   * The repair step `_build_quiz_from_notes` applies to each objective item:
   * fewer than four options are padded with `optionN` names, and a missing
   * answer text is taken from the option at the answer index when there is one.
   * (The step that recomputes a non-integer answer index cannot fire here: the
   * index is an integer by construction.)
   */
  method RepairObjective(item: QuizItem, rng: Stream) returns (fixed: Option<QuizItem>, rest: Stream)
    requires item.Objective?
    ensures Consumed(rest, rng)
    ensures fixed.None? ==> rest == [] && |item.options| < 4
    ensures fixed.Some? ==> fixed.value.Objective?
    ensures fixed.Some? ==> fixed.value.q == item.q && fixed.value.answerIndex == item.answerIndex
    ensures fixed.Some? ==> var o := fixed.value.options;
      && |o| == (if |item.options| < 4 then 4 else |item.options|)
      && o[..|item.options|] == item.options && OptionNamesFrom(o, |item.options|)
    ensures fixed.Some? ==> fixed.value.answerText == RepairedAnswerText(item, fixed.value.options)
    ensures |item.options| >= 4 ==> rest == rng
    ensures fixed.Some? <==> |rng| >= 4 - |item.options|
    ensures fixed.Some? && |item.options| < 4 ==> rest == rng[4 - |item.options|..]
  {
    var opts := item.options;
    rest := rng;
    if |opts| < 4 {
      while |opts| < 4
        invariant Consumed(rest, rng) && |item.options| <= |opts| <= 4
        invariant opts[..|item.options|] == item.options && OptionNamesFrom(opts, |item.options|)
        invariant |rng| - |rest| == |opts| - |item.options|
        decreases 4 - |opts|
      {
        if rest == [] {
          return None, [];
        }
        var n := 1 + rest[0] % 99;
        ConsumedStep(rest, rng);
        rest := rest[1..];
        assert IsOptionName(OptionName(n)) by {
          assert 1 <= n <= 99;
        }
        AppendName(opts, OptionName(n), |item.options|);
        opts := opts + [OptionName(n)];
      }
      opts := opts[..4];
    }
    var answerText := item.answerText;
    if !Truthy(answerText) {
      var ai := item.answerIndex;
      if 0 <= ai < |opts| {
        answerText := Some(opts[ai]);
      } else {
        answerText := None;
      }
    }
    fixed := Some(Objective(item.q, opts, item.answerIndex, answerText));
  }

  /** The answer text after the repair step: kept when truthy, else the option at the answer index if any. */
  function RepairedAnswerText(item: QuizItem, options: seq<string>): Option<string>
    requires item.Objective?
  {
    if HasAnswerText(item) then item.answerText
    else if 0 <= item.answerIndex < |options| then Some(options[item.answerIndex])
    else None
  }

  /** The item the builder pads a short quiz with. */
  function Placeholder(qtype: string): (item: QuizItem)
    ensures qtype == "objective" ==> item.Objective? && |item.options| == 4
    ensures qtype == "objective" ==> 0 <= item.answerIndex < 4 && item.answerText == Some(item.options[item.answerIndex])
    ensures qtype != "objective" ==> item.Subjective? && item.answer == ""
  {
    if qtype == "objective" then Objective("Placeholder question", LetterOptions, 0, Some("A"))
    else Subjective("Describe briefly ...", "")
  }

  /**
   * The question the builder makes from sentence `s`: for an objective quiz,
   * the sentence with options A to D and no answer when it has no answer word,
   * and otherwise an objective question around its answer word; for any other
   * quiz type, the subjective question.
   */
  predicate FromSentence(item: QuizItem, s: string, qtype: string) {
    if qtype != "objective" then item == MakeSubjective(s)
    else if !Truthy(AnswerWord(s)) then item == Objective(s, LetterOptions, -1, None)
    else GoodObjective(item, s, AnswerWord(s).value, Keywords.Keywords(s, 8, ObjectiveStop))
  }

  /** Questions built by the builder need no repair. */
  lemma BuiltNeedsNoRepair(item: QuizItem, s: string)
    requires FromSentence(item, s, "objective")
    ensures item.Objective? && |item.options| >= 4
    ensures HasAnswerText(item) || (item.answerText.None? && item.answerIndex == -1)
  {
    if Truthy(AnswerWord(s)) {
      var ai := item.answerIndex;
      assert item.options[ai] != [];
    }
  }

  /** How many items come from sentences: the loop stops once `count` items are out. */
  function SentenceItems(poolSize: nat, count: int): nat {
    var want := if count < 1 then 1 else count;
    if poolSize < want then poolSize else want
  }

  /** The number of sentences the builder looks at: `max(30, count * 4)`. */
  function PoolSize(sentences: nat, count: int): nat {
    var bound := if 30 < count * 4 then count * 4 else 30;
    if sentences < bound then sentences else bound
  }

  /**
   * One objective question of `_build_quiz_from_notes`: the question built from
   * the sentence, passed through the repair step.
   */
  method ObjectiveQuestion(s: string, rng: Stream) returns (item: Option<QuizItem>, rest: Stream)
    ensures Consumed(rest, rng)
    ensures item.None? ==> rest == []
    ensures item.Some? ==> FromSentence(item.value, s, "objective")
    ensures FreshDraws(rng, ObjectiveFillers(s)) && |rng| >= ObjectiveDraws(s) ==>
      item.Some? && rest == rng[ObjectiveDraws(s)..]
    ensures NoCloseRepeats(rng) && |rng| >= 6 ==> item.Some? && NoCloseRepeats(rest) && |rest| >= |rng| - 6
  {
    ObjectiveDrawsBound(s);
    if NoCloseRepeats(rng) && |rng| >= 6 {
      NoCloseRepeatsFresh(rng, ObjectiveFillers(s));
      NoCloseRepeatsSuffix(rng, ObjectiveDraws(s));
    }
    var obj, r1 := MakeObjective(s, rng);
    if obj.None? {
      return None, [];
    }
    BuiltNeedsNoRepair(obj.value, s);
    var fixed, r2 := RepairObjective(obj.value, r1);
    FixedUnchanged(obj.value, fixed.value);
    ConsumedTrans(r2, r1, rng);
    item, rest := fixed, r2;
  }

  /**
   * The loop of `_build_quiz_from_notes` over the sentence pool: one question
   * per sentence, in order, until `count` questions are out (always at least
   * one when the pool is not empty).
   */
  method PoolQuestions(pool: seq<string>, qtype: string, count: int, rng: Stream)
    returns (out: Option<seq<QuizItem>>, rest: Stream)
    ensures Consumed(rest, rng)
    ensures out.None? ==> rest == []
    ensures out.Some? ==> |out.value| == SentenceItems(|pool|, count) && BuiltFrom(out.value, pool, qtype)
    ensures qtype != "objective" ==> out.Some? && rest == rng
    ensures NoCloseRepeats(rng) && |rng| >= 6 * SentenceItems(|pool|, count) ==> out.Some?
  {
    var n := SentenceItems(|pool|, count);
    ghost var enough := NoCloseRepeats(rng) && |rng| >= 6 * n;
    var items: seq<QuizItem> := [];
    rest := rng;
    var i := 0;
    while i < |pool|
      invariant 0 <= i <= |pool| && |items| == i && i <= n
      invariant Consumed(rest, rng) && (qtype != "objective" ==> rest == rng)
      invariant BuiltFrom(items, pool, qtype)
      invariant i > 0 ==> i < count
      invariant enough ==> NoCloseRepeats(rest) && |rest| >= 6 * (n - i)
      decreases |pool| - i
    {
      var item, r1 := SentenceQuestion(pool[i], qtype, rest);
      if item.None? {
        return None, [];
      }
      ConsumedTrans(r1, rest, rng);
      rest := r1;
      BuiltFromAppend(items, item.value, pool, qtype);
      items := items + [item.value];
      i := i + 1;
      if |items| >= count {
        break;
      }
    }
    out := Some(items);
  }

  /** The question of one pool sentence: objective and repaired, or subjective. */
  method SentenceQuestion(s: string, qtype: string, rng: Stream) returns (item: Option<QuizItem>, rest: Stream)
    ensures Consumed(rest, rng)
    ensures item.None? ==> rest == []
    ensures item.Some? ==> FromSentence(item.value, s, qtype)
    ensures qtype != "objective" ==> item.Some? && rest == rng
    ensures NoCloseRepeats(rng) && |rng| >= 6 ==> item.Some? && NoCloseRepeats(rest) && |rest| >= |rng| - 6
  {
    if qtype == "objective" {
      item, rest := ObjectiveQuestion(s, rng);
    } else {
      item, rest := Some(MakeSubjective(s)), rng;
    }
  }

  /** The padding loop of `_build_quiz_from_notes`: placeholders up to `count` items. */
  method PadQuiz(items: seq<QuizItem>, qtype: string, count: int) returns (quiz: seq<QuizItem>)
    ensures |quiz| == if |items| < count then count else |items|
    ensures quiz[..|items|] == items
    ensures forall j :: |items| <= j < |quiz| ==> quiz[j] == Placeholder(qtype)
  {
    quiz := items;
    while |quiz| < count
      invariant |items| <= |quiz| && (|items| < count ==> |quiz| <= count) && (|items| >= count ==> quiz == items)
      invariant quiz[..|items|] == items
      invariant forall j :: |items| <= j < |quiz| ==> quiz[j] == Placeholder(qtype)
      decreases count - |quiz|
    {
      quiz := quiz + [Placeholder(qtype)];
    }
  }

  /**
   * `_build_quiz_from_notes(md, qtype, count)`, drawing the shuffle, filler
   * numbers and option shuffles from `rng`; None only when the stream runs out,
   * which a long enough stream without close repeats never does.
   * The quiz holds exactly `count` items when `count` is positive, and otherwise
   * one item when the notes have a sentence. Item `i` is built from the `i`-th
   * shuffled sentence while sentences last, and placeholders fill the rest.
   */
  method BuildQuizFromNotes(md: string, qtype: string, count: int, rng: Stream)
    returns (quiz: Option<seq<QuizItem>>, rest: Stream)
    ensures Consumed(rest, rng)
    ensures quiz.None? ==> rest == []
    ensures quiz.Some? ==> Shuffle(SentencesFromNotes(md), rng).Some?
    ensures quiz.Some? ==> QuizFromSentences(quiz.value, Shuffle(SentencesFromNotes(md), rng).value.0, qtype, count)
    ensures qtype != "objective" && |rng| >= |SentencesFromNotes(md)| - 1 ==> quiz.Some?
    ensures var n := |SentencesFromNotes(md)|;
      NoCloseRepeats(rng) && |rng| >= n - 1 + 6 * SentenceItems(PoolSize(n, count), count) ==> quiz.Some?
  {
    quiz, rest := ShuffledQuiz(SentencesFromNotes(md), qtype, count, rng);
  }

  /** The quiz built from the sentences of the notes: shuffled, then turned into questions. */
  method ShuffledQuiz(sentences: seq<string>, qtype: string, count: int, rng: Stream)
    returns (quiz: Option<seq<QuizItem>>, rest: Stream)
    ensures Consumed(rest, rng)
    ensures quiz.None? ==> rest == []
    ensures quiz.Some? ==> Shuffle(sentences, rng).Some?
    ensures quiz.Some? ==> QuizFromSentences(quiz.value, Shuffle(sentences, rng).value.0, qtype, count)
    ensures qtype != "objective" && |rng| >= |sentences| - 1 ==> quiz.Some?
    ensures var n := |sentences|;
      NoCloseRepeats(rng) && |rng| >= n - 1 + 6 * SentenceItems(PoolSize(n, count), count) ==> quiz.Some?
  {
    var shuffled := Shuffle(sentences, rng);
    if shuffled.None? {
      return None, [];
    }
    var sh, r1 := shuffled.value.0, shuffled.value.1;
    assert NoCloseRepeats(rng) ==> NoCloseRepeats(r1) by {
      if NoCloseRepeats(rng) {
        NoCloseRepeatsSuffix(rng, |rng| - |r1|);
      }
    }
    quiz, rest := QuizFromPool(sh, qtype, count, r1);
    ConsumedTrans(rest, r1, rng);
  }

  /** The quiz built from sentences already in their shuffled order. */
  method QuizFromPool(sh: seq<string>, qtype: string, count: int, rng: Stream)
    returns (quiz: Option<seq<QuizItem>>, rest: Stream)
    ensures Consumed(rest, rng)
    ensures quiz.None? ==> rest == []
    ensures quiz.Some? ==> QuizFromSentences(quiz.value, sh, qtype, count)
    ensures qtype != "objective" ==> quiz.Some?
    ensures NoCloseRepeats(rng) && |rng| >= 6 * SentenceItems(PoolSize(|sh|, count), count) ==> quiz.Some?
  {
    var bound := if 30 < count * 4 then count * 4 else 30;
    var pool := if |sh| < bound then sh else sh[..bound];
    assert |pool| == PoolSize(|sh|, count);
    var items, r1 := PoolQuestions(pool, qtype, count, rng);
    if items.None? {
      return None, [];
    }
    var padded := PadQuiz(items.value, qtype, count);
    PoolPrefix(pool, sh, items.value, padded, qtype, count);
    quiz, rest := Some(padded), r1;
  }

  /**
   * The quiz is built from the shuffled sentences `sh`: it has `count` items
   * (or, for a count below one, one item when there is a sentence), the first
   * ones made from the first shuffled sentences in order, placeholders after.
   */
  predicate QuizFromSentences(quiz: seq<QuizItem>, sh: seq<string>, qtype: string, count: int) {
    var n := SentenceItems(PoolSize(|sh|, count), count);
    && |quiz| == (if count < 1 then n else count)
    && n <= |quiz| && BuiltFrom(quiz[..n], sh, qtype)
    && (forall i :: n <= i < |quiz| ==> quiz[i] == Placeholder(qtype))
  }

  /**
   * `items[j]` is the question built from `pool[j]` for every `j`; stated
   * recursively, so that the solver unfolds it only as far as a proof needs.
   */
  predicate BuiltFrom(items: seq<QuizItem>, pool: seq<string>, qtype: string)
    decreases |items|
  {
    |items| <= |pool|
    && (items != [] ==>
      BuiltFrom(items[..|items| - 1], pool, qtype) && FromSentence(items[|items| - 1], pool[|items| - 1], qtype))
  }

  lemma BuiltFromAppend(items: seq<QuizItem>, item: QuizItem, pool: seq<string>, qtype: string)
    requires BuiltFrom(items, pool, qtype) && |items| < |pool| && FromSentence(item, pool[|items|], qtype)
    ensures BuiltFrom(items + [item], pool, qtype)
  {
    assert (items + [item])[..|items|] == items;
  }

  /** Every item is the question built from the sentence at its position. */
  lemma {:induction false} BuiltFromAt(items: seq<QuizItem>, pool: seq<string>, qtype: string, j: nat)
    requires BuiltFrom(items, pool, qtype) && j < |items|
    ensures FromSentence(items[j], pool[j], qtype)
    decreases |items|
  {
    if j < |items| - 1 {
      BuiltFromAt(items[..|items| - 1], pool, qtype, j);
    }
  }

  /**
   * Every question of an objective quiz, built or padded, is objective with
   * exactly four options.
   */
  lemma ObjectiveQuizHasFourOptions(quiz: seq<QuizItem>, sh: seq<string>, count: int, j: nat)
    ensures QuizFromSentences(quiz, sh, "objective", count) && j < |quiz| ==>
      quiz[j].Objective? && |quiz[j].options| == 4
  {
    var n := SentenceItems(PoolSize(|sh|, count), count);
    if QuizFromSentences(quiz, sh, "objective", count) && j < n {
      BuiltFromAt(quiz[..n], sh, "objective", j);
      assert quiz[..n][j] == quiz[j];
    }
  }

  /** A prefix of the pool the items came from gives the same items. */
  lemma {:induction false} BuiltFromPrefix(items: seq<QuizItem>, pool: seq<string>, sh: seq<string>, qtype: string)
    requires BuiltFrom(items, pool, qtype) && |pool| <= |sh| && pool == sh[..|pool|]
    ensures BuiltFrom(items, sh, qtype)
    decreases |items|
  {
    if items != [] {
      BuiltFromPrefix(items[..|items| - 1], pool, sh, qtype);
    }
  }

  lemma PoolPrefix(pool: seq<string>, sh: seq<string>, items: seq<QuizItem>, quiz: seq<QuizItem>, qtype: string, count: int)
    requires |pool| == PoolSize(|sh|, count) && pool == sh[..|pool|]
    requires |items| == SentenceItems(|pool|, count) && BuiltFrom(items, pool, qtype)
    requires |quiz| == (if |items| < count then count else |items|) && quiz[..|items|] == items
    requires forall j :: |items| <= j < |quiz| ==> quiz[j] == Placeholder(qtype)
    ensures QuizFromSentences(quiz, sh, qtype, count)
  {
    assert quiz[..|items|] == items;
    BuiltFromPrefix(items, pool, sh, qtype);
  }

  /** A repaired item with nothing to repair is the item itself. */
  lemma FixedUnchanged(item: QuizItem, fixed: QuizItem)
    requires item.Objective? && fixed.Objective? && |item.options| >= 4
    requires HasAnswerText(item) || (item.answerText.None? && item.answerIndex == -1)
    requires fixed.q == item.q && fixed.answerIndex == item.answerIndex
    requires |fixed.options| == |item.options| && fixed.options[..|item.options|] == item.options
    requires fixed.answerText == RepairedAnswerText(item, fixed.options)
    ensures fixed == item
  {
    assert fixed.options == fixed.options[..|item.options|];
  }
}
