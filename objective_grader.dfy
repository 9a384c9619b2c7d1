/**
 * The objective branch of the grading endpoint (`grade_quiz` in main.py): for
 * each question of the decoded quiz it works out the expected option index,
 * reads the user's answer as a digit string, and records whether the two agree.
 *
 * The quiz and the answers arrive as JSON text; the model starts from the values
 * `json.loads` makes of them. An exception raised while grading (a TypeError for
 * options that cannot be iterated, an IndexError for a missing answer) makes the
 * endpoint fail; the model returns it as a `GradeError` naming the question.
 *
 * `GradeObjective` is the specification; `GradeObjectiveLoop` is the endpoint's
 * loop and is proved to compute it.
 */
module ObjectiveGrader {
  import opened Wrappers
  import opened Text
  import opened Seqs
  import Keywords

  /**
   * A value as Python's json.loads returns it. A float carries its repr; an
   * object carries its members in the order of the text, repeated keys included.
   */
  datatype Json =
    | JNull
    | JBool(b: bool)
    | JInt(n: int)
    | JFloat(repr: string)
    | JStr(s: string)
    | JArr(items: seq<Json>)
    | JObj(members: seq<(string, Json)>)

  /** The exception that ends grading, with the position of the question that raised it. */
  datatype GradeError = NotIterable(i: nat) | MissingAnswer(i: nat)

  /** `{"i", "correct", "your", "answer"}` for one question. */
  datatype Outcome = Outcome(i: nat, correct: bool, your: int, answer: int)

  /** The counts and per-question outcomes of the reply (the score is left out). */
  datatype Report = Report(correct: nat, total: nat, results: seq<Outcome>)

  /** Python truthiness of a decoded value. */
  predicate PyTruthy(v: Json) {
    match v
    case JNull => false
    case JBool(b) => b
    case JInt(n) => n != 0
    case JFloat(r) => r != "0.0" && r != "-0.0"
    case JStr(s) => s != []
    case JArr(items) => items != []
    case JObj(members) => members != []
  }

  /** `isinstance(v, int)`: bool is a subclass of int. */
  predicate IsPyInt(v: Json) {
    v.JInt? || v.JBool?
  }

  /** The integer an int or a bool stands for. */
  function IntValue(v: Json): int
    requires IsPyInt(v)
  {
    if v.JInt? then v.n else if v.b then 1 else 0
  }

  /** `d.get(key)` of a decoded object. */
  function Get(members: seq<(string, Json)>, key: string): (r: Option<Json>)
    ensures r.None? <==> forall j :: 0 <= j < |members| ==> members[j].0 != key
    ensures r.Some? ==> (key, r.value) in members
  {
    if members == [] then None
    else if members[|members| - 1].0 == key then Some(members[|members| - 1].1)
    else
      var r := Get(members[..|members| - 1], key);
      assert forall j :: 0 <= j < |members| - 1 ==> members[..|members| - 1][j] == members[j];
      r
  }

  /** json.loads keeps the last value given for a repeated key. */
  lemma {:induction false} GetFindsLast(members: seq<(string, Json)>, key: string, j: nat)
    requires j < |members| && members[j].0 == key
    requires forall k :: j < k < |members| ==> members[k].0 != key
    ensures Get(members, key) == Some(members[j].1)
    decreases |members|
  {
    var n := |members| - 1;
    if j < n {
      assert members[..n][j] == members[j];
      GetFindsLast(members[..n], key, j);
    }
  }

  /** `a or b or ""` over two lookups, a missing key reading as None. */
  function FirstTruthy(a: Option<Json>, b: Option<Json>): (r: Json)
    ensures r == JStr("") || (a.Some? && r == a.value) || (b.Some? && r == b.value)
    ensures r != JStr("") ==> PyTruthy(r)
  {
    if a.Some? && PyTruthy(a.value) then a.value
    else if b.Some? && PyTruthy(b.value) then b.value
    else JStr("")
  }

  /** The keys of an object, once each, in the order they first appear (dict order). */
  function Keys(members: seq<(string, Json)>): seq<string> {
    Keywords.Distinct(Map(members, (m: (string, Json)) => m.0))
  }

  /**
   * `enumerate(q.get("options") or [])`: the items of a list, the one-character
   * strings of a string, the keys of an object; a truthy number or True cannot be
   * iterated.
   */
  function OptionItems(v: Option<Json>): (r: Option<seq<Json>>)
    ensures v.None? || !PyTruthy(v.value) ==> r == Some([])
    ensures v.Some? && v.value.JArr? ==> r == Some(v.value.items)
  {
    if v.None? || !PyTruthy(v.value) then Some([])
    else
      match v.value
      case JArr(items) => Some(items)
      case JStr(s) => Some(Map(s, (c: char) => JStr([c])))
      case JObj(members) => Some(Map(Keys(members), (k: string) => JStr(k)))
      case _ => None
  }

  /** `str(v)` of a scalar; None for a list or an object, whose repr is not modelled. */
  function PyStr(v: Json): (r: Option<string>)
    ensures v.JStr? ==> r == Some(v.s)
    ensures v.JInt? ==> r == Some(IntToString(v.n))
    ensures r.None? <==> v.JArr? || v.JObj?
  {
    match v
    case JNull => Some("None")
    case JBool(b) => Some(if b then "True" else "False")
    case JInt(n) => Some(IntToString(n))
    case JFloat(r) => Some(r)
    case JStr(s) => Some(s)
    case JArr(_) => None
    case JObj(_) => None
  }

  /** `opt and at and str(opt).strip().lower() == str(at).strip().lower()`. */
  predicate OptionMatches(opt: Json, at: Json) {
    && PyTruthy(opt) && PyTruthy(at)
    && PyStr(opt).Some? && PyStr(at).Some?
    && Lower(PyStrip(PyStr(opt).value)) == Lower(PyStrip(PyStr(at).value))
  }

  /** The first option matching `at`, or -1. */
  function FirstMatch(opts: seq<Json>, at: Json): (k: int)
    ensures -1 <= k < |opts|
    ensures k >= 0 ==> OptionMatches(opts[k], at)
    ensures forall j :: 0 <= j < |opts| && (k < 0 || j < k) ==> !OptionMatches(opts[j], at)
  {
    if opts == [] then -1
    else if OptionMatches(opts[0], at) then 0
    else
      var k := FirstMatch(opts[1..], at);
      assert forall j :: 1 <= j < |opts| ==> opts[j] == opts[1..][j - 1];
      if k < 0 then -1 else k + 1
  }

  /**
   * The expected index `ai` of one question: an int `answer_index`, else an int
   * `answer`, else the first option equal to the answer text up to case and
   * surrounding white space; -1 for anything else. None when the options cannot
   * be iterated.
   */
  function ExpectedIndex(q: Json): Option<int> {
    if !q.JObj? then Some(-1)
    else
      var index := Get(q.members, "answer_index");
      var answer := Get(q.members, "answer");
      if index.Some? && IsPyInt(index.value) then Some(IntValue(index.value))
      else if answer.Some? && IsPyInt(answer.value) then Some(IntValue(answer.value))
      else
        var at := FirstTruthy(Get(q.members, "answer_text"), answer);
        match OptionItems(Get(q.members, "options"))
        case None => None
        case Some(opts) => Some(FirstMatch(opts, at))
  }

  /** `int(a) if str(a).isdigit() else -1`. */
  function UserIndex(a: Json): int {
    match PyStr(a)
    case None => -1
    case Some(t) => if IsDigitString(t) then DigitsValue(t) else -1
  }

  /** The outcome for question `i`, or the exception it raises. */
  function GradeOne(i: nat, q: Json, answers: seq<Json>): (r: Result<Outcome, GradeError>)
    ensures r.Failure? <==> ExpectedIndex(q).None? || i >= |answers|
    ensures r.Failure? && ExpectedIndex(q).None? ==> r.error == NotIterable(i)
    ensures r.Success? ==> r.value.i == i && r.value.answer == ExpectedIndex(q).value
    ensures r.Success? ==> r.value.your == UserIndex(answers[i])
    ensures r.Success? ==> (r.value.correct <==> r.value.your == r.value.answer && r.value.answer >= 0)
  {
    match ExpectedIndex(q)
    case None => Failure(NotIterable(i))
    case Some(ai) =>
      if i >= |answers| then Failure(MissingAnswer(i))
      else
        var ui := UserIndex(answers[i]);
        Success(Outcome(i, ui == ai && ai >= 0, ui, ai))
  }

  /** The outcomes of the questions in order, or the first exception. */
  function GradeItems(quiz: seq<Json>, answers: seq<Json>): (r: Result<seq<Outcome>, GradeError>)
    ensures r.Success? ==> |r.value| == |quiz|
  {
    if quiz == [] then Success([])
    else
      var n := |quiz| - 1;
      match GradeItems(quiz[..n], answers)
      case Failure(e) => Failure(e)
      case Success(rs) =>
        match GradeOne(n, quiz[n], answers)
        case Failure(e) => Failure(e)
        case Success(o) => Success(rs + [o])
  }

  /** The number of outcomes marked correct. */
  function CountCorrect(rs: seq<Outcome>): (c: nat)
    ensures c <= |rs|
  {
    if rs == [] then 0
    else CountCorrect(rs[..|rs| - 1]) + (if rs[|rs| - 1].correct then 1 else 0)
  }

  /** The specification of the objective branch of `grade_quiz`. */
  function GradeObjective(quiz: seq<Json>, answers: seq<Json>): Result<Report, GradeError> {
    match GradeItems(quiz, answers)
    case Failure(e) => Failure(e)
    case Success(rs) => Success(Report(CountCorrect(rs), |quiz|, rs))
  }

  /** The loop over the options, stopping at the first match. */
  method MatchOption(opts: seq<Json>, at: Json) returns (ai: int)
    ensures ai == FirstMatch(opts, at)
  {
    var ii := 0;
    while ii < |opts|
      invariant 0 <= ii <= |opts|
      invariant forall j :: 0 <= j < ii ==> !OptionMatches(opts[j], at)
      decreases |opts| - ii
    {
      if OptionMatches(opts[ii], at) {
        FirstMatchUnique(opts, at, ii);
        return ii;
      }
      ii := ii + 1;
    }
    FirstMatchUnique(opts, at, -1);
    return -1;
  }

  /** The first match is the only index that matches with no match before it. */
  lemma FirstMatchUnique(opts: seq<Json>, at: Json, k: int)
    requires -1 <= k < |opts|
    requires k >= 0 ==> OptionMatches(opts[k], at)
    requires forall j :: 0 <= j < |opts| && (k < 0 || j < k) ==> !OptionMatches(opts[j], at)
    ensures k == FirstMatch(opts, at)
  {
  }

  /** The endpoint's computation of `ai` for one question. */
  method ExpectedIndexOf(q: Json) returns (ai: Option<int>)
    ensures ai == ExpectedIndex(q)
  {
    ai := Some(-1);
    if q.JObj? {
      var index := Get(q.members, "answer_index");
      var answer := Get(q.members, "answer");
      if index.Some? && IsPyInt(index.value) {
        ai := Some(IntValue(index.value));
      } else if answer.Some? && IsPyInt(answer.value) {
        ai := Some(IntValue(answer.value));
      } else {
        var at := FirstTruthy(Get(q.members, "answer_text"), answer);
        var opts := OptionItems(Get(q.members, "options"));
        if opts.None? {
          return None;
        }
        var k := MatchOption(opts.value, at);
        ai := Some(k);
      }
    }
  }

  /** The grading loop of the objective branch. */
  method GradeObjectiveLoop(quiz: seq<Json>, answers: seq<Json>) returns (r: Result<Report, GradeError>)
    ensures r == GradeObjective(quiz, answers)
  {
    var results: seq<Outcome> := [];
    var correct := 0;
    for i := 0 to |quiz|
      invariant GradeItems(quiz[..i], answers) == Success(results)
      invariant correct == CountCorrect(results)
    {
      var ai := ExpectedIndexOf(quiz[i]);
      GradeItemsStep(quiz, answers, i);
      if ai.None? || i >= |answers| {
        GradeItemsFailureStays(quiz, answers, i + 1);
        r := if ai.None? then Failure(NotIterable(i)) else Failure(MissingAnswer(i));
        return;
      }
      var ui := UserIndex(answers[i]);
      var ok := ui == ai.value && ai.value >= 0;
      if ok {
        correct := correct + 1;
      }
      var o := Outcome(i, ok, ui, ai.value);
      CountCorrectSnoc(results, o);
      results := results + [o];
    }
    assert quiz[..|quiz|] == quiz;
    r := Success(Report(correct, |quiz|, results));
  }

  /** Grading one more question extends the outcomes by its outcome, or fails with its exception. */
  lemma GradeItemsStep(quiz: seq<Json>, answers: seq<Json>, i: nat)
    requires i < |quiz| && GradeItems(quiz[..i], answers).Success?
    ensures GradeItems(quiz[..i + 1], answers) ==
      match GradeOne(i, quiz[i], answers)
      case Failure(e) => Failure(e)
      case Success(o) => Success(GradeItems(quiz[..i], answers).value + [o])
  {
    assert quiz[..i + 1][..i] == quiz[..i];
  }

  /** Once a prefix of the quiz fails, the whole quiz fails with the same exception. */
  lemma {:induction false} GradeItemsFailureStays(quiz: seq<Json>, answers: seq<Json>, m: nat)
    requires m <= |quiz| && GradeItems(quiz[..m], answers).Failure?
    ensures GradeItems(quiz, answers) == GradeItems(quiz[..m], answers)
    decreases |quiz|
  {
    if m < |quiz| {
      var n := |quiz| - 1;
      assert quiz[..n][..m] == quiz[..m];
      GradeItemsFailureStays(quiz[..n], answers, m);
    } else {
      assert quiz[..m] == quiz;
    }
  }

  lemma CountCorrectSnoc(rs: seq<Outcome>, o: Outcome)
    ensures CountCorrect(rs + [o]) == CountCorrect(rs) + (if o.correct then 1 else 0)
  {
    assert (rs + [o])[..|rs|] == rs;
  }

  /** Outcome `j` is the outcome of question `j`. */
  lemma {:induction false} GradeItemsAt(quiz: seq<Json>, answers: seq<Json>, j: nat)
    requires GradeItems(quiz, answers).Success? && j < |quiz|
    ensures GradeOne(j, quiz[j], answers).Success?
    ensures GradeItems(quiz, answers).value[j] == GradeOne(j, quiz[j], answers).value
    decreases |quiz|
  {
    var n := |quiz| - 1;
    if j < n {
      GradeItemsAt(quiz[..n], answers, j);
    }
  }

  /**
   * Grading fails exactly when some question's options cannot be iterated or
   * some question has no answer at its position.
   */
  lemma {:induction false} GradeItemsFails(quiz: seq<Json>, answers: seq<Json>)
    ensures GradeItems(quiz, answers).Failure? <==>
      exists j :: 0 <= j < |quiz| && (ExpectedIndex(quiz[j]).None? || j >= |answers|)
    decreases |quiz|
  {
    if quiz != [] {
      var n := |quiz| - 1;
      var init := quiz[..n];
      GradeItemsFails(init, answers);
      if GradeItems(init, answers).Failure? {
        var j :| 0 <= j < n && (ExpectedIndex(init[j]).None? || j >= |answers|);
        assert init[j] == quiz[j];
      } else if GradeOne(n, quiz[n], answers).Failure? {
        assert ExpectedIndex(quiz[n]).None? || n >= |answers|;
      } else {
        forall j | 0 <= j < |quiz|
          ensures ExpectedIndex(quiz[j]).Some? && j < |answers|
        {
          if j < n {
            assert init[j] == quiz[j];
          }
        }
      }
    }
  }

  /**
   * One outcome per question, in order; each is correct exactly when the user's
   * index equals a non-negative expected index, and `correct` counts them.
   */
  lemma GradeReportMeaning(quiz: seq<Json>, answers: seq<Json>)
    requires GradeObjective(quiz, answers).Success?
    ensures var rep := GradeObjective(quiz, answers).value;
      && rep.total == |quiz| == |rep.results|
      && rep.correct <= rep.total
      && forall j :: 0 <= j < |quiz| ==>
        && ExpectedIndex(quiz[j]).Some? && j < |answers|
        && rep.results[j] == Outcome(j, rep.results[j].correct, UserIndex(answers[j]), ExpectedIndex(quiz[j]).value)
        && (rep.results[j].correct <==> UserIndex(answers[j]) == ExpectedIndex(quiz[j]).value >= 0)
  {
    forall j | 0 <= j < |quiz|
      ensures GradeOne(j, quiz[j], answers).Success?
      ensures GradeItems(quiz, answers).value[j] == GradeOne(j, quiz[j], answers).value
    {
      GradeItemsAt(quiz, answers, j);
    }
  }

  /** The positions of the outcomes marked correct. */
  function CorrectPositions(rs: seq<Outcome>): set<int> {
    set j | 0 <= j < |rs| && rs[j].correct
  }

  /** `correct` is the number of outcomes marked correct. */
  lemma {:induction false} CountCorrectIsCardinality(rs: seq<Outcome>)
    ensures CountCorrect(rs) == |CorrectPositions(rs)|
  {
    if rs != [] {
      var n := |rs| - 1;
      CountCorrectIsCardinality(rs[..n]);
      var before := CorrectPositions(rs[..n]);
      assert forall j :: 0 <= j < n ==> rs[..n][j] == rs[j];
      if rs[n].correct {
        assert CorrectPositions(rs) == before + {n};
      } else {
        assert CorrectPositions(rs) == before;
      }
    }
  }

  /** An int `answer_index` is the expected index, whatever else the question holds. */
  lemma IntIndexWins(members: seq<(string, Json)>, n: int)
    requires Get(members, "answer_index") == Some(JInt(n))
    ensures ExpectedIndex(JObj(members)) == Some(n)
  {
  }

  /**
   * With no int `answer_index` or `answer`, a list of options holding the answer
   * text (up to case and surrounding white space) points at its first such option.
   */
  lemma TextAnswerIndex(members: seq<(string, Json)>, opts: seq<Json>, k: nat)
    requires Get(members, "answer_index").None? && Get(members, "answer").None?
    requires Get(members, "options") == Some(JArr(opts))
    requires Get(members, "answer_text").Some? && PyTruthy(Get(members, "answer_text").value)
    requires k < |opts| && OptionMatches(opts[k], Get(members, "answer_text").value)
    requires forall j :: 0 <= j < k ==> !OptionMatches(opts[j], Get(members, "answer_text").value)
    ensures ExpectedIndex(JObj(members)) == Some(k)
  {
    FirstMatchUnique(opts, Get(members, "answer_text").value, k);
  }

  /** A question that is not an object expects nothing: it can never be answered correctly. */
  lemma NonObjectNeverCorrect(i: nat, q: Json, answers: seq<Json>)
    requires !q.JObj? && i < |answers|
    ensures GradeOne(i, q, answers) == Success(Outcome(i, false, UserIndex(answers[i]), -1))
  {
  }

  /**
   * A non-negative int answer is read as itself, a negative one as -1; a string
   * answer counts only when it is a non-empty run of decimal digits.
   */
  lemma UserIndexOfInt(n: int)
    ensures UserIndex(JInt(n)) == if n >= 0 then n else -1
  {
    if n >= 0 {
      DigitStringOfNat(n);
    } else {
      NegativeNotDigitString(n);
    }
  }

  lemma UserIndexOfDigits(s: string)
    ensures IsDigitString(s) ==> UserIndex(JStr(s)) == DigitsValue(s)
    ensures !IsDigitString(s) ==> UserIndex(JStr(s)) == -1
  {
  }
}
