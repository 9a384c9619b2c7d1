/**
 * The quiz page's local grading of an objective quiz (`submitGrade` in App.jsx),
 * the record it stores as the result, and the field-by-field merge of the
 * grading service's reply into that record.
 *
 * `LocalGrade` is the specification; `GradeLocal` is the page's loop and is
 * proved to compute it.
 */
module LocalGrading {
  import opened Wrappers
  import opened Text
  import opened QuestionNormalizer

  /** What an answer slot holds: a chosen option index, or text typed into a subjective quiz. */
  datatype AnswerSlot = Choice(index: int) | Written(text: string)

  /**
   * One graded item `{i, correct, your, answer}`; `your` is None where the page
   * computes NaN (a typed answer that does not start with an integer).
   */
  datatype ItemResult = ItemResult(i: int, correct: bool, your: Option<int>, answer: int)

  /** `{score, correct, total, results}` as the page computes it. */
  datatype LocalResult = LocalResult(score: int, correct: int, total: int, results: seq<ItemResult>)

  /** The expected index of a question: its answer index when non-negative, else -1. */
  function ExpectedIndex(q: NormalizedQuestion): (ai: int)
    ensures ai >= -1
    ensures ai >= 0 <==> q.answerIndex >= 0
    ensures ai >= 0 ==> ai == q.answerIndex
  {
    if q.answerIndex >= 0 then q.answerIndex else -1
  }

  /** The slot at `i`; a missing slot reads as the empty default, which parses as -1. */
  function SlotAt(answers: seq<AnswerSlot>, i: nat): AnswerSlot {
    if i < |answers| then answers[i] else Written("")
  }

  /** The given index: an integer slot as it is, anything else through `parseInt(String(a || "-1"), 10)`. */
  function GivenIndex(slot: AnswerSlot): (ui: Option<int>)
    ensures slot.Choice? ==> ui == Some(slot.index)
  {
    match slot
    case Choice(n) => Some(n)
    case Written(s) => ParseIntJs(if s == "" then "-1" else s)
  }

  /** The graded item for question `i`. */
  function GradeItem(i: int, q: NormalizedQuestion, slot: AnswerSlot): (r: ItemResult)
    ensures r.i == i && r.answer == ExpectedIndex(q) && r.your == GivenIndex(slot)
    ensures r.correct <==> ExpectedIndex(q) >= 0 && GivenIndex(slot) == Some(ExpectedIndex(q))
  {
    var ai := ExpectedIndex(q);
    var ui := GivenIndex(slot);
    ItemResult(i, ai >= 0 && ui == Some(ai), ui, ai)
  }

  /** The graded items of `quiz`, one per question and in order. */
  function Items(quiz: seq<NormalizedQuestion>, answers: seq<AnswerSlot>): (r: seq<ItemResult>)
    ensures |r| == |quiz|
  {
    if quiz == [] then []
    else
      var n := |quiz| - 1;
      Items(quiz[..n], answers) + [GradeItem(n, quiz[n], SlotAt(answers, n))]
  }

  /** The number of correct items. */
  function CountCorrect(items: seq<ItemResult>): (c: nat)
    ensures c <= |items|
  {
    if items == [] then 0
    else CountCorrect(items[..|items| - 1]) + (if items[|items| - 1].correct then 1 else 0)
  }

  /** `Math.max(1, total)`. */
  function Denominator(total: nat): (m: nat)
    ensures m >= 1 && m >= total
  {
    if total < 1 then 1 else total
  }

  /** `Math.round(100 * correct / Math.max(1, total))`, halves rounding up. */
  function RoundedPercent(correct: nat, total: nat): int {
    var m := Denominator(total);
    (200 * correct + m) / (2 * m)
  }

  /** The specification of local grading. */
  function LocalGrade(quiz: seq<NormalizedQuestion>, answers: seq<AnswerSlot>): LocalResult {
    var items := Items(quiz, answers);
    var correct := CountCorrect(items);
    LocalResult(RoundedPercent(correct, |quiz|), correct, |quiz|, items)
  }

  /** The page's grading loop. */
  method GradeLocal(quiz: seq<NormalizedQuestion>, answers: seq<AnswerSlot>) returns (r: LocalResult)
    ensures r == LocalGrade(quiz, answers)
  {
    var correct := 0;
    var results: seq<ItemResult> := [];
    for i := 0 to |quiz|
      invariant results == Items(quiz[..i], answers)
      invariant correct == CountCorrect(results)
    {
      var q := quiz[i];
      var ai := if q.answerIndex >= 0 then q.answerIndex else -1;
      var ui := GivenIndex(SlotAt(answers, i));
      var ok := ai >= 0 && ui == Some(ai);
      if ok {
        correct := correct + 1;
      }
      var item := ItemResult(i, ok, ui, ai);
      assert item == GradeItem(i, quiz[i], SlotAt(answers, i));
      ItemsStep(quiz, answers, i);
      CountCorrectSnoc(results, item);
      results := results + [item];
    }
    assert quiz[..|quiz|] == quiz;
    var m := if |quiz| < 1 then 1 else |quiz|;
    r := LocalResult((200 * correct + m) / (2 * m), correct, |quiz|, results);
  }

  /** Grading one more question appends its item. */
  lemma ItemsStep(quiz: seq<NormalizedQuestion>, answers: seq<AnswerSlot>, i: nat)
    requires i < |quiz|
    ensures Items(quiz[..i + 1], answers) == Items(quiz[..i], answers) + [GradeItem(i, quiz[i], SlotAt(answers, i))]
  {
    assert quiz[..i + 1][..i] == quiz[..i];
  }

  /** One more item adds one to the count exactly when it is correct. */
  lemma CountCorrectSnoc(items: seq<ItemResult>, item: ItemResult)
    ensures CountCorrect(items + [item]) == CountCorrect(items) + (if item.correct then 1 else 0)
  {
    assert (items + [item])[..|items|] == items;
  }

  /** Item `j` of the graded items is question `j` graded against slot `j`. */
  lemma {:induction false} ItemsAt(quiz: seq<NormalizedQuestion>, answers: seq<AnswerSlot>, j: nat)
    requires j < |quiz|
    ensures Items(quiz, answers)[j] == GradeItem(j, quiz[j], SlotAt(answers, j))
    decreases |quiz|
  {
    var n := |quiz| - 1;
    if j < n {
      ItemsAt(quiz[..n], answers, j);
    }
  }

  /** The positions of the correct items. */
  function CorrectPositions(items: seq<ItemResult>): set<int> {
    set j | 0 <= j < |items| && items[j].correct
  }

  /** `correct` counts exactly the items marked correct. */
  lemma {:induction false} CountCorrectIsCardinality(items: seq<ItemResult>)
    ensures CountCorrect(items) == |CorrectPositions(items)|
  {
    if items != [] {
      var n := |items| - 1;
      CountCorrectIsCardinality(items[..n]);
      var before := CorrectPositions(items[..n]);
      assert n !in before;
      if items[n].correct {
        assert CorrectPositions(items) == before + {n};
      } else {
        assert CorrectPositions(items) == before;
      }
    }
  }

  /**
   * The rounded percentage is the integer nearest to `100 * correct / max(1, total)`,
   * halves rounding up.
   */
  lemma RoundedPercentIsNearest(correct: nat, total: nat)
    ensures var m := Denominator(total);
      var r := RoundedPercent(correct, total);
      200 * correct - m < 2 * m * r <= 200 * correct + m
  {
    var m := Denominator(total);
    var a := 200 * correct + m;
    var r := a / (2 * m);
    assert a == r * (2 * m) + a % (2 * m);
    assert 2 * m * r == r * (2 * m);
  }

  /** An empty typed answer reads as -1, like an unanswered choice. */
  lemma EmptyWrittenReadsMinusOne()
    ensures GivenIndex(Written("")) == Some(-1)
  {
    ParseIntOfNegativeDigits("1");
    assert "-" + "1" == "-1";
  }

  /** Cancelling a positive factor from a strict inequality. */
  lemma CancelFactor(m: int, a: int, b: int)
    requires m > 0 && m * a < m * b
    ensures a < b
  {
  }

  /**
   * With at most `total` correct items the score lies in [0, 100]; a quiz with
   * every item correct scores 100 and one with none correct scores 0.
   */
  lemma RoundedPercentBounds(correct: nat, total: nat)
    requires correct <= total
    ensures 0 <= RoundedPercent(correct, total) <= 100
    ensures correct == total > 0 ==> RoundedPercent(correct, total) == 100
    ensures correct == 0 ==> RoundedPercent(correct, total) == 0
  {
    var m := Denominator(total);
    var r := RoundedPercent(correct, total);
    RoundedPercentIsNearest(correct, total);
    assert 200 * correct <= 200 * m;
    CancelFactor(2 * m, -1, r);
    CancelFactor(2 * m, r, 101);
    if correct == total > 0 {
      CancelFactor(2 * m, 99, r);
    }
    if correct == 0 {
      CancelFactor(2 * m, r, 1);
    }
  }

  /**
   * One result per question, in order; an item is correct exactly when its
   * expected index is non-negative and the given index equals it; the counts and
   * the score are consistent.
   */
  lemma LocalGradeMeaning(quiz: seq<NormalizedQuestion>, answers: seq<AnswerSlot>)
    ensures var r := LocalGrade(quiz, answers);
      && r.total == |quiz| && |r.results| == |quiz|
      && r.correct == |CorrectPositions(r.results)| && r.correct <= r.total
      && 0 <= r.score <= 100
      && forall j :: 0 <= j < |quiz| ==>
           r.results[j].i == j
           && r.results[j].answer == ExpectedIndex(quiz[j])
           && r.results[j].your == GivenIndex(SlotAt(answers, j))
           && (r.results[j].correct <==>
                 ExpectedIndex(quiz[j]) >= 0 && GivenIndex(SlotAt(answers, j)) == Some(ExpectedIndex(quiz[j])))
  {
    var r := LocalGrade(quiz, answers);
    CountCorrectIsCardinality(r.results);
    RoundedPercentBounds(r.correct, r.total);
    forall j | 0 <= j < |quiz|
      ensures r.results[j] == GradeItem(j, quiz[j], SlotAt(answers, j))
    {
      ItemsAt(quiz, answers, j);
    }
  }

  /** Expected indices 1, -1, 2 against chosen options 1, 0, 2: two correct out of three, score 67. */
  lemma TwoOfThreeExample(quiz: seq<NormalizedQuestion>)
    requires |quiz| == 3
    requires quiz[0].answerIndex == 1 && quiz[1].answerIndex == -1 && quiz[2].answerIndex == 2
    ensures var r := LocalGrade(quiz, [Choice(1), Choice(0), Choice(2)]);
      r.correct == 2 && r.total == 3 && r.score == 67
  {
    var answers := [Choice(1), Choice(0), Choice(2)];
    var items := Items(quiz, answers);
    ItemsAt(quiz, answers, 0);
    ItemsAt(quiz, answers, 1);
    ItemsAt(quiz, answers, 2);
    assert items[..2][..1] == items[..1];
    assert items[..3] == items;
    assert CountCorrect(items[..1]) == 1;
    assert CountCorrect(items[..2]) == 1;
    assert CountCorrect(items) == 2;
  }

  /** A JavaScript value as the page holds it in the result record. */
  datatype JsValue =
    | JNull
    | JBool(b: bool)
    | JNum(x: real)
    | JNaN
    | JStr(s: string)
    | JArr(items: seq<JsValue>)
    | JObj(fields: map<string, JsValue>)

  /** An item as the object `{i, correct, your, answer}`. */
  function ItemRecord(item: ItemResult): map<string, JsValue> {
    map[
      "i" := JNum(item.i as real),
      "correct" := JBool(item.correct),
      "your" := (match item.your case Some(n) => JNum(n as real) case None => JNaN),
      "answer" := JNum(item.answer as real)]
  }

  /** The local result as the object stored in the page's `result` state. */
  function ResultRecord(r: LocalResult): (rec: map<string, JsValue>)
    ensures rec.Keys == {"score", "correct", "total", "results"}
    ensures rec["results"].JArr? && |rec["results"].items| == |r.results|
  {
    map[
      "score" := JNum(r.score as real),
      "correct" := JNum(r.correct as real),
      "total" := JNum(r.total as real),
      "results" := JArr(seq(|r.results|, j requires 0 <= j < |r.results| => JObj(ItemRecord(r.results[j]))))]
  }

  /**
   * `{...(prev || {}), ...data}`: the reply's fields replace the same-named
   * fields, and every other field of the previous record stays.
   */
  function Merge(prev: Option<map<string, JsValue>>, data: map<string, JsValue>): (r: map<string, JsValue>)
    ensures r.Keys == prev.GetOr(map[]).Keys + data.Keys
    ensures forall k :: k in data ==> r[k] == data[k]
    ensures forall k :: k in prev.GetOr(map[]) && k !in data ==> r[k] == prev.GetOr(map[])[k]
  {
    prev.GetOr(map[]) + data
  }

  /** Merging the same reply twice is merging it once. */
  lemma MergeIdempotent(prev: Option<map<string, JsValue>>, data: map<string, JsValue>)
    ensures Merge(Some(Merge(prev, data)), data) == Merge(prev, data)
  {
    var once := Merge(prev, data);
    var twice := Merge(Some(once), data);
    assert twice.Keys == once.Keys;
    forall k | k in once
      ensures twice[k] == once[k]
    {
    }
  }

  /** A reply that carries every field of the previous record replaces the record entirely. */
  lemma MergeReplacesCoveredRecord(prev: map<string, JsValue>, data: map<string, JsValue>)
    requires prev.Keys <= data.Keys
    ensures Merge(Some(prev), data) == data
  {
    var r := Merge(Some(prev), data);
    assert r.Keys == data.Keys;
  }
}
