/**
 * The state kept by the notes page and the quiz page, and the steps that change
 * it. Each page is a class whose fields are the page's state variables; each
 * handler is a method. A handler that waits for the service is split in two: the
 * part before the request (`Begin…`, `Submit…`) and the part that handles the
 * reply (`Finish…`, `Receive…`). Replies, ids and timestamps are parameters.
 */
module Sessions {
  import opened Wrappers
  import opened Text
  import opened Seqs
  import opened QuestionNormalizer
  import opened LocalGrading
  import opened History

  /** The quiz kind selected on the page. */
  datatype QuizType = Objective | Subjective

  /** Where the notes for a quiz come from. */
  datatype NotesSource = Paste | Pdf

  /** What reading the chosen PDF gave: no file chosen, its notes, or an error message. */
  datatype PdfOutcome = NoFile | Extracted(markdown: string) | ExtractFailed(message: string)

  /** Why a generation request was not sent. */
  datatype GenerateError = BadCount | NoPdfChosen | PdfFailed(message: string) | NotesTooShort

  /** The request sent to the quiz generator. */
  datatype GenerateRequest = GenerateRequest(count: int, notes: string, qtype: QuizType)

  /** The generator's reply: a failure message, or the `quiz` field (None when it is not an array). */
  datatype QuizReply = QuizFailed(message: string) | QuizReceived(items: Option<seq<RawQuestion>>)

  /** A stored quiz: `{created, qtype, count, notesPreview, quiz}` (the id is the entry's). */
  datatype QuizRecord = QuizRecord(
    created: string, qtype: QuizType, count: nat, notesPreview: string, quiz: seq<NormalizedQuestion>)

  /** A question as sent for grading: `{q, options, answer_index}`. */
  datatype SentQuestion = SentQuestion(q: JsField, options: seq<string>, answerIndex: int)

  /** What submitting does: nothing (no quiz), send an objective grading request, or a subjective one. */
  datatype GradeStart =
    | NothingToGrade
    | ObjectiveSent(quiz: seq<SentQuestion>, answers: seq<int>)
    | SubjectiveSent

  /** The grading service's reply: a status and a JSON object, or no usable reply at all. */
  datatype GradeReply = Replied(ok: bool, data: map<string, JsValue>) | Unreachable

  /** The number of questions, as `parseInt(String(count || "").trim() || "0", 10)` reads the field. */
  function ParsedCount(count: string): Option<int> {
    var t := JsTrim(count);
    ParseIntJs(if t == "" then "0" else t)
  }

  /** The notes a request would carry: the trimmed pasted text, or the extracted PDF notes as they are. */
  function RequestNotes(source: NotesSource, notesText: string, pdf: PdfOutcome): Result<string, GenerateError> {
    match source
    case Paste => Success(JsTrim(notesText))
    case Pdf =>
      match pdf
      case NoFile => Failure(NoPdfChosen)
      case ExtractFailed(m) => Failure(PdfFailed(m))
      case Extracted(md) => Success(md)
  }

  /**
   * The checks before a quiz is requested, in their order: the count must parse
   * to 1..20, a PDF must be chosen and read when it is the source, and the
   * notes must have at least 10 characters once trimmed.
   */
  function CheckGenerate(count: string, source: NotesSource, notesText: string, pdf: PdfOutcome, qtype: QuizType)
    : (r: Result<GenerateRequest, GenerateError>)
    ensures r.Success? ==> 1 <= r.value.count <= 20 && |JsTrim(r.value.notes)| >= 10 && r.value.qtype == qtype
  {
    match ParsedCount(count)
    case None => Failure(BadCount)
    case Some(n) =>
      if n < 1 || n > 20 then Failure(BadCount)
      else
        match RequestNotes(source, notesText, pdf)
        case Failure(e) => Failure(e)
        case Success(notes) =>
          if notes == "" || |JsTrim(notes)| < 10 then Failure(NotesTooShort)
          else Success(GenerateRequest(n, notes, qtype))
  }

  /** A count from 1 to 20 is what lets a request through. */
  predicate CountAccepted(count: string) {
    ParsedCount(count).Some? && 1 <= ParsedCount(count).value <= 20
  }

  /**
   * A request goes out exactly when the count is accepted and the notes have at
   * least 10 characters once trimmed; the count is checked first.
   */
  lemma CheckGenerateAcceptsExactly(count: string, source: NotesSource, notesText: string, pdf: PdfOutcome, qtype: QuizType)
    ensures var r := CheckGenerate(count, source, notesText, pdf, qtype);
      && (r.Success? <==>
            CountAccepted(count) && RequestNotes(source, notesText, pdf).Success?
            && |JsTrim(RequestNotes(source, notesText, pdf).value)| >= 10)
      && (r == Failure(BadCount) <==> !CountAccepted(count))
      && (r.Success? ==> r.value == GenerateRequest(ParsedCount(count).value, RequestNotes(source, notesText, pdf).value, qtype))
  {
  }

  /** `Array(n).fill(qtype === "objective" ? -1 : "")`. */
  function FreshAnswers(n: nat, qtype: QuizType): (a: seq<AnswerSlot>)
    ensures |a| == n
    ensures forall j :: 0 <= j < n ==> a[j] == if qtype == Objective then Choice(-1) else Written("")
  {
    seq(n, j => if qtype == Objective then Choice(-1) else Written(""))
  }

  /** `notes.slice(0, 250)`. */
  function Preview(notes: string): (p: string)
    ensures |p| <= 250 && |p| <= |notes| && p == notes[..|p|]
    ensures |notes| >= 250 ==> |p| == 250
    ensures |notes| < 250 ==> p == notes
  {
    if |notes| <= 250 then notes else notes[..250]
  }

  /** A question as sent to the grading service. */
  function Sent(q: NormalizedQuestion): SentQuestion {
    SentQuestion(q.q, q.options, q.answerIndex)
  }

  /** The quiz as sent for objective grading. */
  function SentQuiz(quiz: seq<NormalizedQuestion>): (r: seq<SentQuestion>)
    ensures |r| == |quiz|
    ensures forall j :: 0 <= j < |quiz| ==> r[j] == SentQuestion(quiz[j].q, quiz[j].options, quiz[j].answerIndex)
  {
    seq(|quiz|, j requires 0 <= j < |quiz| => Sent(quiz[j]))
  }

  /** `answers.map((a) => (Number.isInteger(a) ? a : -1))`. */
  function SentAnswers(answers: seq<AnswerSlot>): (r: seq<int>)
    ensures |r| == |answers|
    ensures forall j :: 0 <= j < |answers| ==> r[j] == (if answers[j].Choice? then answers[j].index else -1)
  {
    seq(|answers|, j requires 0 <= j < |answers| => SentAnswer(answers[j]))
  }

  /** `Number.isInteger(a) ? a : -1`. */
  function SentAnswer(slot: AnswerSlot): (n: int)
    ensures slot.Choice? ==> n == slot.index
    ensures slot.Written? ==> n == -1
  {
    match slot
    case Choice(n) => n
    case Written(_) => -1
  }

  /** The quiz page. */
  class QuizSession {
    var qtype: QuizType
    var loading: bool
    var quiz: seq<NormalizedQuestion>
    var answers: seq<AnswerSlot>
    var result: Option<map<string, JsValue>>
    var graded: bool
    var history: seq<Entry<QuizRecord>>

    /** One answer slot per question, and a graded quiz always has a result. */
    predicate Valid()
      reads this
    {
      |answers| == |quiz| && (graded ==> result.Some?)
    }

    /** The page as it opens, with the stored quiz history. */
    constructor (stored: seq<Entry<QuizRecord>>)
      ensures Valid()
      ensures qtype == Objective && !loading && quiz == [] && answers == []
      ensures result == None && !graded && history == stored
    {
      qtype := Objective;
      loading := false;
      quiz := [];
      answers := [];
      result := None;
      graded := false;
      history := stored;
    }

    /** The quiz-type selector. */
    method ChooseType(t: QuizType)
      modifies this
      ensures qtype == t
      ensures loading == old(loading) && quiz == old(quiz) && answers == old(answers)
      ensures result == old(result) && graded == old(graded) && history == old(history)
    {
      qtype := t;
    }

    /**
     * The part of generation before the request: the previous quiz, answers and
     * result are cleared, then the inputs are checked; the page stays loading
     * only when the request goes out.
     */
    method BeginGenerate(count: string, source: NotesSource, notesText: string, pdf: PdfOutcome)
      returns (outcome: Result<GenerateRequest, GenerateError>)
      modifies this
      ensures qtype == old(qtype) && history == old(history)
      ensures outcome == CheckGenerate(count, source, notesText, pdf, qtype)
      ensures quiz == [] && answers == [] && result == None && !graded
      ensures loading <==> outcome.Success?
      ensures Valid()
    {
      outcome := CheckGenerate(count, source, notesText, pdf, qtype);
      result := None;
      graded := false;
      quiz := [];
      answers := [];
      loading := outcome.Success?;
    }

    /**
     * The part of generation after the reply: every received record is
     * normalised, one fresh answer slot is made per question for the quiz type of
     * the request, and the quiz goes first in the history, which keeps 50 entries.
     */
    method FinishGenerate(req: GenerateRequest, reply: QuizReply, id: int, created: string)
      modifies this
      ensures !loading && qtype == old(qtype)
      ensures reply.QuizFailed? ==>
        quiz == old(quiz) && answers == old(answers) && history == old(history)
      ensures reply.QuizFailed? ==> result == old(result) && graded == old(graded)
      ensures reply.QuizReceived? ==>
        var raws := reply.items.GetOr([]);
        && quiz == Map(raws, Normalize)
        && answers == FreshAnswers(|raws|, req.qtype)
        && history == Prepend(old(history),
             Entry(id, QuizRecord(created, req.qtype, |raws|, Preview(req.notes), quiz)), QuizCapacity)
        && result == old(result) && graded == old(graded)
      ensures old(Valid()) ==> Valid()
    {
      loading := false;
      if reply.QuizFailed? {
        return;
      }
      var raws := reply.items.GetOr([]);
      var normalized := Map(raws, Normalize);
      quiz := normalized;
      answers := FreshAnswers(|normalized|, req.qtype);
      var entry := Entry(id, QuizRecord(created, req.qtype, |normalized|, Preview(req.notes), normalized));
      history := Prepend(history, entry, QuizCapacity);
    }

    /** Choosing option `optIndex` for question `qIndex` changes that slot only. */
    method SelectOption(qIndex: nat, optIndex: int)
      requires Valid() && qIndex < |quiz|
      modifies this
      ensures Valid()
      ensures answers == old(answers)[qIndex := Choice(optIndex)]
      ensures qtype == old(qtype) && loading == old(loading) && quiz == old(quiz)
      ensures result == old(result) && graded == old(graded) && history == old(history)
    {
      answers := answers[qIndex := Choice(optIndex)];
    }

    /** Typing a short answer for question `qIndex` changes that slot only. */
    method TypeAnswer(qIndex: nat, text: string)
      requires Valid() && qIndex < |quiz|
      modifies this
      ensures Valid()
      ensures answers == old(answers)[qIndex := Written(text)]
      ensures qtype == old(qtype) && loading == old(loading) && quiz == old(quiz)
      ensures result == old(result) && graded == old(graded) && history == old(history)
    {
      answers := answers[qIndex := Written(text)];
    }

    /**
     * Submitting: with no quiz nothing happens. An objective quiz is graded on the
     * page at once, the result is stored and marked graded, and the quiz and the
     * integer answers are sent for grading; a subjective quiz is only sent.
     */
    method SubmitGrade() returns (start: GradeStart)
      modifies this
      ensures quiz == [] ==> start == NothingToGrade && unchanged(this)
      ensures quiz != [] && qtype == Objective ==>
        && start == ObjectiveSent(SentQuiz(quiz), SentAnswers(answers))
        && result == Some(ResultRecord(LocalGrade(quiz, answers)))
        && graded && loading
      ensures quiz != [] && qtype == Subjective ==>
        start == SubjectiveSent && loading && result == old(result) && graded == old(graded)
      ensures qtype == old(qtype) && quiz == old(quiz) && answers == old(answers) && history == old(history)
      ensures old(Valid()) ==> Valid()
    {
      if quiz == [] {
        return NothingToGrade;
      }
      loading := true;
      if qtype == Objective {
        var local := GradeLocal(quiz, answers);
        result := Some(ResultRecord(local));
        graded := true;
        start := ObjectiveSent(SentQuiz(quiz), SentAnswers(answers));
      } else {
        start := SubjectiveSent;
      }
    }

    /**
     * The grading service's reply to an objective request: a successful reply's
     * fields are merged over the local result; otherwise the local result stays.
     */
    method ReceiveObjectiveGrade(reply: GradeReply)
      modifies this
      ensures reply.Replied? && reply.ok ==> result == Some(Merge(old(result), reply.data))
      ensures !(reply.Replied? && reply.ok) ==> result == old(result)
      ensures !loading && graded == old(graded)
      ensures qtype == old(qtype) && quiz == old(quiz) && answers == old(answers) && history == old(history)
      ensures old(Valid()) ==> Valid()
    {
      if reply.Replied? && reply.ok {
        result := Some(Merge(result, reply.data));
      }
      loading := false;
    }

    /** The grading service's reply to a subjective request replaces the result when it succeeds. */
    method ReceiveSubjectiveGrade(reply: GradeReply)
      modifies this
      ensures reply.Replied? && reply.ok ==> result == Some(reply.data) && graded
      ensures !(reply.Replied? && reply.ok) ==> result == old(result) && graded == old(graded)
      ensures !loading
      ensures qtype == old(qtype) && quiz == old(quiz) && answers == old(answers) && history == old(history)
      ensures old(Valid()) ==> Valid()
    {
      if reply.Replied? && reply.ok {
        result := Some(reply.data);
        graded := true;
      }
      loading := false;
    }

    /** Loading a stored quiz: its questions, fresh answers for the type selected now, no result. */
    method LoadFromHistory(h: Entry<QuizRecord>)
      modifies this
      ensures quiz == h.payload.quiz
      ensures answers == FreshAnswers(|h.payload.quiz|, old(qtype))
      ensures result == None && !graded
      ensures qtype == old(qtype) && loading == old(loading) && history == old(history)
      ensures Valid()
    {
      quiz := h.payload.quiz;
      answers := FreshAnswers(|quiz|, qtype);
      result := None;
      graded := false;
    }
  }

  /** A stored notes entry: `{fileName, mode, provider, model, created, markdown}` (the id is the entry's). */
  datatype NotesRecord = NotesRecord(
    fileName: string, smart: bool, provider: string, model: string, created: string, markdown: string)

  /**
   * The notes service's reply: the `markdown` field (None when absent or falsy, which `|| ""`
   * turns into the empty notes), or an error message.
   */
  datatype NotesReply = NotesReceived(markdown: Option<string>) | NotesFailed(message: string)

  /** The message shown when generation is asked for without a file. */
  const ChooseAPdf := "Please choose a PDF."

  /** The notes page. */
  class NotesSession {
    var markdown: string
    var error: string
    var loading: bool
    var history: seq<Entry<NotesRecord>>

    /** The page as it opens, with the stored notes history. */
    constructor (stored: seq<Entry<NotesRecord>>)
      ensures markdown == "" && error == "" && !loading && history == stored
    {
      markdown := "";
      error := "";
      loading := false;
      history := stored;
    }

    /** The part of generation before the request: without a file it stops with a message. */
    method BeginGenerate(fileChosen: bool) returns (started: bool)
      modifies this
      ensures started == fileChosen
      ensures error == (if fileChosen then "" else ChooseAPdf)
      ensures loading == (fileChosen || old(loading))
      ensures markdown == old(markdown) && history == old(history)
    {
      error := "";
      if !fileChosen {
        error := ChooseAPdf;
        return false;
      }
      loading := true;
      started := true;
    }

    /**
     * The part after the reply: the notes are shown and recorded first in the
     * history, which keeps 40 entries; a failure shows its message instead.
     */
    method FinishGenerate(reply: NotesReply, id: int, fileName: string, smart: bool,
                          provider: string, model: string, created: string)
      modifies this
      ensures !loading
      ensures reply.NotesReceived? ==>
        && markdown == reply.markdown.GetOr("")
        && history == Prepend(old(history),
             Entry(id, NotesRecord(fileName, smart, provider, model, created, reply.markdown.GetOr(""))),
             NotesCapacity)
        && error == old(error)
      ensures reply.NotesFailed? ==>
        markdown == old(markdown) && history == old(history) && error == reply.message
    {
      loading := false;
      match reply
      case NotesReceived(md) =>
        markdown := md.GetOr("");
        var entry := Entry(id, NotesRecord(fileName, smart, provider, model, created, markdown));
        history := Prepend(history, entry, NotesCapacity);
      case NotesFailed(message) =>
        error := message;
    }

    /** Previewing a stored entry shows its notes. */
    method LoadHistoryItem(item: Entry<NotesRecord>)
      modifies this
      ensures markdown == item.payload.markdown
      ensures error == old(error) && loading == old(loading) && history == old(history)
    {
      markdown := item.payload.markdown;
    }

    /** Deleting removes every entry with the id and keeps the others in order. */
    method DeleteHistory(id: int)
      modifies this
      ensures history == Delete(old(history), id)
      ensures markdown == old(markdown) && error == old(error) && loading == old(loading)
    {
      history := Delete(history, id);
    }
  }

  /** A count typed as a plain integer is accepted exactly when it is from 1 to 20. */
  lemma TypedCount(n: int)
    ensures ParsedCount(IntToString(n)) == Some(n)
    ensures CountAccepted(IntToString(n)) <==> 1 <= n <= 20
  {
    var s := IntToString(n);
    assert s[0] == '-' || IsAsciiDigit(s[0]);
    JsTrimKeeps(s);
    ParseIntOfIntToString(n);
  }

  /** A blank count reads as 0 and is refused. */
  lemma BlankCountRefused(count: string)
    requires JsTrim(count) == ""
    ensures !CountAccepted(count)
  {
    ParseIntOfIntToString(0);
    assert IntToString(0) == "0";
  }
}
