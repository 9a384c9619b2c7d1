/**
 * The two gradings of an objective quiz side by side. The quiz page grades the
 * quiz itself (`LocalGrading`), then sends `{q, options, answer_index}` per
 * question and the integer answers to the grading endpoint (`ObjectiveGrader`)
 * and merges the reply over its own result. This module turns what the page
 * sends into the values the endpoint decodes, and relates the two results.
 */
module Reconciliation {
  import opened Wrappers
  import opened Seqs
  import opened QuestionNormalizer
  import LocalGrading
  import Sessions
  import G = ObjectiveGrader

  /** A JSON scalar as it travels from JSON.stringify to json.loads. */
  function ScalarJson(v: JsScalar): G.Json {
    match v
    case JsNull => G.JNull
    case JsBool(b) => G.JBool(b)
    case JsNum(n) => G.JInt(n)
    case JsStr(s) => G.JStr(s)
  }

  /** A question as the endpoint decodes it; JSON.stringify leaves out an undefined `q`. */
  function SentJson(s: Sessions.SentQuestion): (j: G.Json)
    ensures j.JObj? && |j.members| >= 2
    ensures j.members[|j.members| - 1] == ("answer_index", G.JInt(s.answerIndex))
  {
    var q := match s.q
      case Undefined => []
      case Scalar(v) => [("q", ScalarJson(v))]
      case Array(items) => [("q", G.JArr(Map(items, ScalarJson)))];
    G.JObj(q + [("options", G.JArr(Map(s.options, (o: string) => G.JStr(o)))), ("answer_index", G.JInt(s.answerIndex))])
  }

  /** The quiz the page sends, as decoded by the endpoint. */
  function QuizJson(quiz: seq<NormalizedQuestion>): (r: seq<G.Json>)
    ensures |r| == |quiz|
  {
    Map(Sessions.SentQuiz(quiz), SentJson)
  }

  /** The answers the page sends, as decoded by the endpoint. */
  function AnswersJson(answers: seq<LocalGrading.AnswerSlot>): (r: seq<G.Json>)
    ensures |r| == |answers|
  {
    Map(Sessions.SentAnswers(answers), (n: int) => G.JInt(n))
  }

  /** The endpoint expects exactly the answer index the page sent. */
  lemma SentIndexIsExpected(s: Sessions.SentQuestion)
    ensures G.ExpectedIndex(SentJson(s)) == Some(s.answerIndex)
  {
    var ms := SentJson(s).members;
    assert G.Get(ms, "answer_index") == Some(G.JInt(s.answerIndex));
  }

  /** Question `j` as the endpoint grades it, against a chosen option. */
  lemma ChoiceGradedAlike(quiz: seq<NormalizedQuestion>, answers: seq<LocalGrading.AnswerSlot>, j: nat)
    requires |answers| == |quiz| && j < |quiz| && answers[j].Choice?
    ensures var o := G.GradeOne(j, QuizJson(quiz)[j], AnswersJson(answers));
      var item := LocalGrading.GradeItem(j, quiz[j], LocalGrading.SlotAt(answers, j));
      && o.Success?
      && o.value.correct == item.correct
      && (quiz[j].answerIndex >= -1 ==> o.value.answer == item.answer)
      && (answers[j].index >= -1 ==> Some(o.value.your) == item.your)
  {
    var s := Sessions.SentQuiz(quiz)[j];
    SentIndexIsExpected(s);
    G.UserIndexOfInt(answers[j].index);
  }

  /**
   * With every slot a chosen option, both gradings succeed and agree: the same
   * number correct out of the same total, the same verdict for every question,
   * and the same expected and given indices wherever those are at least -1 (as
   * normalised questions and the option buttons make them).
   */
  lemma ChoiceAnswersAgree(quiz: seq<NormalizedQuestion>, answers: seq<LocalGrading.AnswerSlot>)
    requires |answers| == |quiz|
    requires forall j :: 0 <= j < |answers| ==> answers[j].Choice?
    ensures var back := G.GradeObjective(QuizJson(quiz), AnswersJson(answers));
      var local := LocalGrading.LocalGrade(quiz, answers);
      && back.Success?
      && back.value.total == local.total
      && back.value.correct == local.correct
      && |back.value.results| == |local.results|
      && forall j :: 0 <= j < |quiz| ==> ResultsAgree(back.value.results[j], local.results[j], quiz[j], answers[j])
  {
    var qj := QuizJson(quiz);
    var aj := AnswersJson(answers);
    G.GradeItemsFails(qj, aj);
    forall j | 0 <= j < |qj|
      ensures G.ExpectedIndex(qj[j]).Some?
    {
      SentIndexIsExpected(Sessions.SentQuiz(quiz)[j]);
    }
    var rs := G.GradeItems(qj, aj).value;
    var items := LocalGrading.Items(quiz, answers);
    forall j | 0 <= j < |quiz|
      ensures ResultsAgree(rs[j], items[j], quiz[j], answers[j])
    {
      G.GradeItemsAt(qj, aj, j);
      LocalGrading.ItemsAt(quiz, answers, j);
      ChoiceGradedAlike(quiz, answers, j);
    }
    SameVerdictsSameCount(rs, items);
  }

  /** One question's verdict, and its indices where the page's own are at least -1, agree. */
  predicate ResultsAgree(o: G.Outcome, item: LocalGrading.ItemResult, q: NormalizedQuestion, slot: LocalGrading.AnswerSlot) {
    && o.correct == item.correct
    && (q.answerIndex >= -1 ==> o.answer == item.answer)
    && (slot.Choice? && slot.index >= -1 ==> Some(o.your) == item.your)
  }

  /** Equal verdicts, position by position, give equal counts. */
  lemma SameVerdictsSameCount(rs: seq<G.Outcome>, items: seq<LocalGrading.ItemResult>)
    requires |rs| == |items|
    requires forall j :: 0 <= j < |rs| ==> rs[j].correct == items[j].correct
    ensures G.CountCorrect(rs) == LocalGrading.CountCorrect(items)
  {
    G.CountCorrectIsCardinality(rs);
    LocalGrading.CountCorrectIsCardinality(items);
    assert G.CorrectPositions(rs) == LocalGrading.CorrectPositions(items);
  }

  /**
   * A typed answer is graded differently: the page reads "1" as option 1, but
   * sends -1 in its place, so for a question whose answer is option 1 the page
   * counts it correct and the endpoint does not.
   */
  lemma WrittenAnswerDisagrees(q: NormalizedQuestion)
    requires q.answerIndex == 1
    ensures var quiz := [q];
      var answers := [LocalGrading.Written("1")];
      && LocalGrading.LocalGrade(quiz, answers).correct == 1
      && G.GradeObjective(QuizJson(quiz), AnswersJson(answers)).Success?
      && G.GradeObjective(QuizJson(quiz), AnswersJson(answers)).value.correct == 0
  {
    var quiz := [q];
    var answers := [LocalGrading.Written("1")];
    Text.ParseIntOfDigits("1");
    LocalGrading.ItemsAt(quiz, answers, 0);
    var qj := QuizJson(quiz);
    var aj := AnswersJson(answers);
    SentIndexIsExpected(Sessions.SentQuiz(quiz)[0]);
    assert qj[0] == SentJson(Sessions.SentQuiz(quiz)[0]);
    assert aj[0] == G.JInt(-1);
    G.UserIndexOfInt(-1);
    var o := G.GradeOne(0, qj[0], aj);
    assert o.Success? && !o.value.correct;
    G.GradeItemsFails(qj, aj);
    G.GradeItemsAt(qj, aj, 0);
    assert G.GradeItems(qj, aj).value == [o.value];
  }
}
