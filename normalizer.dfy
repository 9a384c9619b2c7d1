/**
 * The quiz page's question normaliser (`normalizeQuestion` in App.jsx): it turns an
 * untyped question record received from the quiz generator into the record the
 * page renders and grades: the question text, at most four options, the index of
 * the correct option (or -1) and, where a literal answer string was given, its
 * trimmed text.
 *
 * `Normalize` is the specification; `NormalizeQuestion` is the step-by-step
 * procedure of the source and is proved to compute it.
 */
module QuestionNormalizer {
  import opened Wrappers
  import opened Text
  import opened Seqs

  /** A JSON scalar as the page sees it after JSON.parse (numbers are integral here). */
  datatype JsScalar = JsNull | JsBool(b: bool) | JsNum(n: int) | JsStr(s: string)

  /** What reading one key of a question record yields. */
  datatype JsField = Undefined | Scalar(v: JsScalar) | Array(items: seq<JsScalar>)

  /** The keys of an upstream question record that normalisation looks at. */
  datatype RawQuestion = RawQuestion(
    q: JsField,
    question: JsField,
    prompt: JsField,
    options: JsField,
    answerIndex: JsField,
    answer: JsField,
    raw: JsField)

  /** `{q, options, answer_index, answer_text, raw}` as the page stores it. */
  datatype NormalizedQuestion = NormalizedQuestion(
    q: JsField,
    options: seq<string>,
    answerIndex: int,
    answerText: Option<string>,
    raw: RawQuestion)

  const MaxOptions := 4

  /** JavaScript truthiness of a field value. */
  predicate Truthy(f: JsField) {
    match f
    case Undefined => false
    case Array(_) => true
    case Scalar(v) =>
      match v
      case JsNull => false
      case JsBool(b) => b
      case JsNum(n) => n != 0
      case JsStr(s) => s != ""
  }

  /** String(v) of a scalar. */
  function ScalarString(v: JsScalar): string {
    match v
    case JsNull => "null"
    case JsBool(b) => if b then "true" else "false"
    case JsNum(n) => IntToString(n)
    case JsStr(s) => s
  }

  /** String(f): an array renders as its elements joined by commas, with null as empty. */
  function FieldString(f: JsField): string {
    match f
    case Undefined => "undefined"
    case Scalar(v) => ScalarString(v)
    case Array(items) =>
      Join(",", seq(|items|, i requires 0 <= i < |items| => if items[i] == JsNull then "" else ScalarString(items[i])))
  }

  /** `rawQ.q || rawQ.question || rawQ.prompt || ""`. */
  function QuestionText(raw: RawQuestion): JsField {
    if Truthy(raw.q) then raw.q
    else if Truthy(raw.question) then raw.question
    else if Truthy(raw.prompt) then raw.prompt
    else Scalar(JsStr(""))
  }

  /** The first `MaxOptions` elements. */
  function Cap(opts: seq<string>): (r: seq<string>)
    ensures |r| <= MaxOptions
    ensures |r| == if |opts| < MaxOptions then |opts| else MaxOptions
    ensures r == opts[..|r|]
  {
    if |opts| > MaxOptions then opts[..MaxOptions] else opts
  }

  predicate IsNewline(c: char) { c == '\n' }

  /** `s.split("\n").map(trim).filter(Boolean)`. */
  function NonEmptyTrimmedLines(s: string): seq<string> {
    Filter(Map(Split(s, IsNewline), JsTrim), NonEmpty)
  }

  /** The options as given: an array element by element (null as empty), or a non-empty string line by line. */
  function ListedOptions(raw: RawQuestion): seq<string> {
    match raw.options
    case Array(items) =>
      seq(|items|, i requires 0 <= i < |items| => if items[i] == JsNull then "" else JsTrim(ScalarString(items[i])))
    case Scalar(JsStr(s)) => if s != "" then NonEmptyTrimmedLines(s) else []
    case _ => []
  }

  /** `answer_index`, when it is present, not null, parses as an integer and lies in `[0, n)`. */
  function ExplicitIndex(raw: RawQuestion, n: nat): (r: Option<int>)
    ensures r.Some? ==> 0 <= r.value < n
  {
    if raw.answerIndex == Undefined || raw.answerIndex == Scalar(JsNull) then None
    else
      match ParseIntJs(FieldString(raw.answerIndex))
      case Some(p) => if 0 <= p < n then Some(p) else None
      case None => None
  }

  /** Case-insensitive equality of a trimmed option with an answer text. */
  predicate OptionMatches(opt: string, t: string) {
    Lower(JsTrim(opt)) == Lower(t)
  }

  /** The first index at or after `i` whose option matches `t`, or -1 (`findIndex`). */
  function MatchFrom(opts: seq<string>, t: string, i: nat): (k: int)
    requires i <= |opts|
    ensures k == -1 || i <= k < |opts|
    ensures k >= 0 ==> OptionMatches(opts[k], t)
    ensures forall j :: i <= j < |opts| && (k == -1 || j < k) ==> !OptionMatches(opts[j], t)
    decreases |opts| - i
  {
    if i == |opts| then -1
    else if OptionMatches(opts[i], t) then i
    else MatchFrom(opts, t, i + 1)
  }

  /** The outcome of answer resolution: an index and possibly the literal answer text. */
  datatype Resolution = Resolution(index: int, text: Option<string>)

  /** `answer` is a string with visible characters. */
  predicate HasTextAnswer(raw: RawQuestion) {
    raw.answer.Scalar? && raw.answer.v.JsStr? && JsTrim(raw.answer.v.s) != ""
  }

  /** `answer` is a number. */
  predicate HasNumericAnswer(raw: RawQuestion) {
    raw.answer.Scalar? && raw.answer.v.JsNum?
  }

  /**
   * Answer resolution against the options: an in-range `answer_index` first, then
   * a non-blank string `answer` matched case-insensitively, then a numeric `answer`.
   */
  function ResolveAnswer(raw: RawQuestion, opts: seq<string>): (r: Resolution)
    ensures r.index == -1 || 0 <= r.index < |opts|
  {
    match ExplicitIndex(raw, |opts|)
    case Some(p) => Resolution(p, None)
    case None =>
      if HasTextAnswer(raw) then
        var t := JsTrim(raw.answer.v.s);
        Resolution(MatchFrom(opts, t, 0), Some(t))
      else if HasNumericAnswer(raw) then
        match ParseIntJs(ScalarString(raw.answer.v))
        case Some(p) => Resolution(if 0 <= p < |opts| then p else -1, None)
        case None => Resolution(-1, None)
      else Resolution(-1, None)
  }

  /** The letters the option-line pattern accepts first: A to D in either case. */
  predicate IsOptionLetter(c: char) {
    'A' <= c <= 'D' || 'a' <= c <= 'd'
  }

  /** Length of the longest prefix of `s` made of non-word characters (`\W`). */
  function NonWordPrefixLength(s: string): (k: nat)
    ensures k <= |s|
    ensures forall i :: 0 <= i < k ==> !IsAsciiWord(s[i])
    ensures k < |s| ==> IsAsciiWord(s[k])
  {
    if s != [] && !IsAsciiWord(s[0]) then 1 + NonWordPrefixLength(s[1..]) else 0
  }

  predicate HasLineTerminator(s: string) {
    exists i :: 0 <= i < |s| && IsJsLineTerminator(s[i])
  }

  /**
   * The group captured by `/^[A-D]\W+\s*(.+)$/i` on a line. The greedy `\W+`
   * takes every non-word character after the letter (`\s` is part of `\W`, so
   * `\s*` takes nothing); when that leaves nothing for `.+`, the last character
   * is given back to it. `.` does not match line terminators.
   */
  function LetteredContent(line: string): Option<string> {
    if line == [] || !IsOptionLetter(line[0]) then None
    else
      var rest := line[1..];
      var k := NonWordPrefixLength(rest);
      if k == 0 || (k == |rest| && k < 2) then None
      else
        var start := if k < |rest| then k else k - 1;
        if HasLineTerminator(rest[start..]) then None else Some(rest[start..])
  }

  /** The trimmed captures of the lettered lines among `parts`, in order. */
  function Detected(parts: seq<string>): seq<string> {
    if parts == [] then []
    else
      Detected(parts[..|parts| - 1])
      + match LetteredContent(parts[|parts| - 1])
        case Some(c) => [JsTrim(c)]
        case None => []
  }

  /** The lettered option lines of a free-text `raw` field. */
  function RawOptions(text: string): seq<string> {
    Detected(NonEmptyTrimmedLines(text))
  }

  /** `raw` is a non-empty string. */
  predicate HasRawText(raw: RawQuestion) {
    raw.raw.Scalar? && raw.raw.v.JsStr? && raw.raw.v.s != ""
  }

  /** The options as listed in the record, capped: what answer resolution sees. */
  function ListedCapped(raw: RawQuestion): seq<string> {
    Cap(ListedOptions(raw))
  }

  /** The options the page keeps: the listed ones, or at least two lettered lines of `raw` when none are listed. */
  function ChosenOptions(raw: RawQuestion): seq<string> {
    var listed := ListedCapped(raw);
    if listed == [] && HasRawText(raw) && |RawOptions(raw.raw.v.s)| >= 2
    then Cap(RawOptions(raw.raw.v.s))
    else listed
  }

  /** The specification of normalisation. */
  function Normalize(raw: RawQuestion): (r: NormalizedQuestion)
    ensures |r.options| <= MaxOptions
    ensures r.answerIndex == -1 || 0 <= r.answerIndex < |r.options|
    ensures r.raw == raw
  {
    var res := ResolveAnswer(raw, ListedCapped(raw));
    NormalizedQuestion(QuestionText(raw), ChosenOptions(raw), res.index, res.text, raw)
  }

  /** `options.findIndex(...)`: the first option equal to `t` after trimming and lower-casing, or -1. */
  method FindMatchingOption(options: seq<string>, t: string) returns (k: int)
    ensures k == MatchFrom(options, t, 0)
    ensures k == -1 || (0 <= k < |options| && OptionMatches(options[k], t))
  {
    var j := 0;
    while j < |options| && !OptionMatches(options[j], t)
      invariant 0 <= j <= |options|
      invariant MatchFrom(options, t, 0) == MatchFrom(options, t, j)
    {
      j := j + 1;
    }
    k := if j < |options| then j else -1;
  }

  /** The loop over the lines of `raw` that pushes the capture of every lettered line. */
  method DetectOptions(parts: seq<string>) returns (detected: seq<string>)
    ensures detected == Detected(parts)
  {
    detected := [];
    for i := 0 to |parts|
      invariant detected == Detected(parts[..i])
    {
      assert parts[..i + 1][..i] == parts[..i];
      var m := LetteredContent(parts[i]);
      if m.Some? {
        detected := detected + [JsTrim(m.value)];
      }
    }
    assert parts[..|parts|] == parts;
  }

  /** The first block of `normalizeQuestion`: the options as listed, capped at four. */
  method CollectOptions(rawQ: RawQuestion) returns (options: seq<string>)
    ensures options == Cap(ListedOptions(rawQ))
  {
    options := [];
    if rawQ.options.Array? {
      options := ListedOptions(rawQ);
    }
    if |options| == 0 && rawQ.options.Scalar? && rawQ.options.v.JsStr? && rawQ.options.v.s != "" {
      options := NonEmptyTrimmedLines(rawQ.options.v.s);
    }
    if |options| > MaxOptions {
      options := options[..MaxOptions];
    }
  }

  /** The second block of `normalizeQuestion`: resolving the answer index and text against `options`. */
  method ResolveAnswerIndex(rawQ: RawQuestion, options: seq<string>) returns (answerIndex: int, answerText: Option<string>)
    ensures Resolution(answerIndex, answerText) == ResolveAnswer(rawQ, options)
  {
    answerIndex := -1;
    if rawQ.answerIndex != Undefined && rawQ.answerIndex != Scalar(JsNull) {
      var parsed := ParseIntJs(FieldString(rawQ.answerIndex));
      if parsed.Some? && parsed.value >= 0 && parsed.value < |options| {
        answerIndex := parsed.value;
      }
    }
    answerText := None;
    if answerIndex == -1 {
      if HasTextAnswer(rawQ) {
        var t := JsTrim(rawQ.answer.v.s);
        answerText := Some(t);
        var m := FindMatchingOption(options, t);
        if m >= 0 {
          answerIndex := m;
        }
      } else if HasNumericAnswer(rawQ) {
        var parsed := ParseIntJs(ScalarString(rawQ.answer.v));
        if parsed.Some? && parsed.value >= 0 && parsed.value < |options| {
          answerIndex := parsed.value;
        }
      }
    }
  }

  /** `normalizeQuestion`, step by step as the page runs it. */
  method NormalizeQuestion(rawQ: RawQuestion) returns (n: NormalizedQuestion)
    ensures n == Normalize(rawQ)
    ensures |n.options| <= MaxOptions
    ensures n.answerIndex == -1 || 0 <= n.answerIndex < |n.options|
  {
    var qtext := QuestionText(rawQ);
    var options := CollectOptions(rawQ);
    var answerIndex, answerText := ResolveAnswerIndex(rawQ, options);
    if |options| == 0 && HasRawText(rawQ) {
      var detected := DetectOptions(NonEmptyTrimmedLines(rawQ.raw.v.s));
      if |detected| >= 2 {
        options := Cap(detected);
      }
    }
    n := NormalizedQuestion(qtext, options, answerIndex, answerText, rawQ);
  }

  /** When the record lists no options, no answer index can be resolved, whatever the fallback adopts. */
  lemma FallbackOptionsHaveNoAnswer(raw: RawQuestion)
    requires ListedCapped(raw) == []
    ensures Normalize(raw).answerIndex == -1
    ensures HasRawText(raw) && |RawOptions(raw.raw.v.s)| >= 2 ==>
      Normalize(raw).options == Cap(RawOptions(raw.raw.v.s))
    ensures !(HasRawText(raw) && |RawOptions(raw.raw.v.s)| >= 2) ==> Normalize(raw).options == []
  {
  }

  /** Options given by the record are kept, in order, up to four; the raw text is then ignored. */
  lemma ListedOptionsAreKept(raw: RawQuestion)
    requires ListedCapped(raw) != []
    ensures Normalize(raw).options == ListedOptions(raw)[..|Normalize(raw).options|]
    ensures |Normalize(raw).options| == if |ListedOptions(raw)| < MaxOptions then |ListedOptions(raw)| else MaxOptions
  {
  }

  /** An in-range `answer_index` wins and leaves the answer text unset. */
  lemma ExplicitIndexWins(raw: RawQuestion, p: int)
    requires raw.answerIndex != Undefined && raw.answerIndex != Scalar(JsNull)
    requires ParseIntJs(FieldString(raw.answerIndex)) == Some(p)
    requires 0 <= p < |ListedCapped(raw)|
    ensures Normalize(raw).answerIndex == p && Normalize(raw).answerText == None
    ensures Normalize(raw).options == ListedCapped(raw)
  {
  }

  /**
   * Without a usable `answer_index`, a non-blank string `answer` becomes the
   * trimmed answer text, and the index is the first option equal to it after
   * trimming and lower-casing, or -1 when none is.
   */
  lemma TextAnswerMatchesFirstOption(raw: RawQuestion)
    requires ExplicitIndex(raw, |ListedCapped(raw)|) == None
    requires HasTextAnswer(raw)
    ensures var r := Normalize(raw);
      var t := JsTrim(raw.answer.v.s);
      && r.answerText == Some(t)
      && (r.answerIndex >= 0 ==>
            r.options == ListedCapped(raw)
            && Lower(JsTrim(r.options[r.answerIndex])) == Lower(t)
            && forall j :: 0 <= j < r.answerIndex ==> Lower(JsTrim(r.options[j])) != Lower(t))
      && (r.answerIndex == -1 ==>
            forall j :: 0 <= j < |ListedCapped(raw)| ==> Lower(JsTrim(ListedCapped(raw)[j])) != Lower(t))
  {
  }

  /** Without a usable `answer_index` and without a string answer, a numeric `answer` in range is the index. */
  lemma NumericAnswerInRange(raw: RawQuestion)
    requires ExplicitIndex(raw, |ListedCapped(raw)|) == None
    requires HasNumericAnswer(raw)
    ensures var n := raw.answer.v.n;
      && Normalize(raw).answerIndex == (if 0 <= n < |ListedCapped(raw)| then n else -1)
      && Normalize(raw).answerText == None
  {
    NumericResolution(raw, ListedCapped(raw));
  }

  lemma NumericResolution(raw: RawQuestion, opts: seq<string>)
    requires ExplicitIndex(raw, |opts|) == None
    requires HasNumericAnswer(raw)
    ensures var n := raw.answer.v.n;
      ResolveAnswer(raw, opts) == Resolution(if 0 <= n < |opts| then n else -1, None)
  {
    var n := raw.answer.v.n;
    assert !HasTextAnswer(raw);
    assert ScalarString(raw.answer.v) == IntToString(n);
    ParseIntOfIntToString(n);
  }

  /** With neither a usable index nor an answer of either kind, the answer is unknown. */
  lemma NoAnswerGiven(raw: RawQuestion)
    requires ExplicitIndex(raw, |ListedCapped(raw)|) == None
    requires !HasTextAnswer(raw) && !HasNumericAnswer(raw)
    ensures Normalize(raw).answerIndex == -1 && Normalize(raw).answerText == None
  {
  }

  /**
   * A record whose string answer equals, up to case and surrounding white space,
   * its k-th listed option (k < 4) and that has no `answer_index` gets an index at
   * most k that names an option equal to the answer.
   */
  lemma TextAnswerRoundTrip(raw: RawQuestion, k: nat, answer: string)
    requires raw.answerIndex == Undefined
    requires raw.options.Array? && k < |raw.options.items| && k < MaxOptions
    requires raw.options.items[k].JsStr?
    requires raw.answer == Scalar(JsStr(answer)) && JsTrim(answer) != ""
    requires Lower(JsTrim(raw.options.items[k].s)) == Lower(JsTrim(answer))
    ensures 0 <= Normalize(raw).answerIndex <= k
    ensures Lower(JsTrim(Normalize(raw).options[Normalize(raw).answerIndex])) == Lower(JsTrim(answer))
  {
    var listed := ListedCapped(raw);
    var t := JsTrim(answer);
    assert |listed| > k && listed[k] == JsTrim(raw.options.items[k].s);
    assert ExplicitIndex(raw, |listed|) == None;
    assert Normalize(raw).options == listed;
    assert Normalize(raw).answerIndex == MatchFrom(listed, t, 0);
    StripWithIdempotent(raw.options.items[k].s, IsJsSpace);
    assert OptionMatches(listed[k], t);
  }

  /** Text that starts with a word character, ends visibly and stays on one line. */
  predicate Word(w: string) {
    w != [] && IsAsciiWord(w[0]) && !IsJsSpace(w[|w| - 1])
    && forall i :: 0 <= i < |w| ==> !IsJsLineTerminator(w[i])
  }

  /** An option line as generators write it: a letter, a closing parenthesis, a space and the option. */
  function OptionLine(letter: char, word: string): (line: string)
    ensures |line| == |word| + 3 && line[0] == letter && line[3..] == word
  {
    [letter, ')', ' '] + word
  }

  /** The lettered capture of one line whose letter is followed by ") " and a word. */
  lemma LetteredLine(letter: char, word: string)
    requires IsOptionLetter(letter)
    requires Word(word)
    ensures LetteredContent(OptionLine(letter, word)) == Some(word)
    ensures JsTrim(word) == word
  {
    var line := OptionLine(letter, word);
    var rest := line[1..];
    assert rest == [')', ' '] + word;
    assert NonWordPrefixLength(rest[2..]) == 0 by { assert rest[2..] == word; }
    assert NonWordPrefixLength(rest) == 2;
    assert rest[2..] == word;
    StripWithKeptEnds(word, IsJsSpace);
  }

  /** A line as `trim` leaves it: non-empty, visible at both ends, without a line feed. */
  predicate TrimmedLine(l: string) {
    l != [] && !IsJsSpace(l[0]) && !IsJsSpace(l[|l| - 1])
    && forall i :: 0 <= i < |l| ==> !IsNewline(l[i])
  }

  /** Lines that are already trimmed survive joining with line feeds, splitting, trimming and filtering. */
  lemma LinesOfJoin(lines: seq<string>)
    requires lines != [] && forall k :: 0 <= k < |lines| ==> TrimmedLine(lines[k])
    ensures NonEmptyTrimmedLines(Join("\n", lines)) == lines
  {
    assert "\n" == ['\n'];
    SplitJoin(lines, '\n', IsNewline);
    forall k | 0 <= k < |lines|
      ensures JsTrim(lines[k]) == lines[k]
    {
      JsTrimKeeps(lines[k]);
    }
    MapFixed(lines, JsTrim);
    FilterAll(lines, NonEmpty);
  }

  /**
   * A record that lists no options but whose `raw` text is made of trimmed lines
   * gets the lettered lines among them as options when there are at least two,
   * and no options otherwise; in either case no answer index.
   */
  lemma RawTextFallback(raw: RawQuestion, lines: seq<string>)
    requires ListedCapped(raw) == []
    requires raw.raw == Scalar(JsStr(Join("\n", lines)))
    requires lines != [] && forall k :: 0 <= k < |lines| ==> TrimmedLine(lines[k])
    ensures Normalize(raw).options == if |Detected(lines)| >= 2 then Cap(Detected(lines)) else []
    ensures Normalize(raw).answerIndex == -1
  {
    LinesOfJoin(lines);
    assert RawOptions(raw.raw.v.s) == Detected(lines);
    assert HasRawText(raw) by {
      assert lines[0] != [];
      if |lines| > 1 {
        assert Join("\n", lines) == lines[0] + "\n" + Join("\n", lines[1..]);
      }
    }
  }

  /** A line that does not start with one of the letters A to D is not an option line. */
  lemma UnletteredLine(line: string)
    requires line != [] && !IsOptionLetter(line[0])
    ensures LetteredContent(line) == None
  {
  }

  /** Detection over one more line appends that line's trimmed capture, if any. */
  lemma DetectedSnoc(parts: seq<string>, line: string)
    ensures Detected(parts + [line]) ==
      Detected(parts) + match LetteredContent(line) case Some(c) => [JsTrim(c)] case None => []
  {
    assert (parts + [line])[..|parts|] == parts;
  }

  /** A lettered line adds its word to what was detected before it. */
  lemma DetectedLettered(parts: seq<string>, letter: char, w: string)
    requires IsOptionLetter(letter) && Word(w)
    ensures Detected(parts + [OptionLine(letter, w)]) == Detected(parts) + [w]
  {
    LetteredLine(letter, w);
    DetectedSnoc(parts, OptionLine(letter, w));
  }

  /** A line that does not start with an option letter adds nothing. */
  lemma DetectedUnlettered(parts: seq<string>, line: string)
    requires line != [] && !IsOptionLetter(line[0])
    ensures Detected(parts + [line]) == Detected(parts)
  {
    UnletteredLine(line);
    DetectedSnoc(parts, line);
  }

  /**
   * Among a question line, three lettered lines and an unrelated note, the
   * lettered lines are detected, in order, and the others are ignored.
   */
  lemma MixedLinesDetected(question: string, w1: string, w2: string, note: string, w3: string)
    requires question != [] && !IsOptionLetter(question[0])
    requires note != [] && !IsOptionLetter(note[0])
    requires Word(w1) && Word(w2) && Word(w3)
    ensures Detected([question] + [OptionLine('A', w1)] + [OptionLine('B', w2)] + [note] + [OptionLine('C', w3)])
      == [w1, w2, w3]
  {
    assert Detected([question]) == [] by {
      DetectedUnlettered([], question);
      assert [] + [question] == [question];
    }
    var p1 := [question] + [OptionLine('A', w1)];
    DetectedLettered([question], 'A', w1);
    var p2 := p1 + [OptionLine('B', w2)];
    DetectedLettered(p1, 'B', w2);
    var p3 := p2 + [note];
    DetectedUnlettered(p2, note);
    DetectedLettered(p3, 'C', w3);
  }
}
