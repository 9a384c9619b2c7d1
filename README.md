# Notes-to-quiz study aid: quiz building, normalisation and grading in Dafny

The system turns study notes into quizzes and grades the answers. Its backend
(`backend/main.py`) cuts notes into sentences, picks keywords, and builds one
objective question per sentence: the answer word is blanked out of the
sentence and offered among four options. It can also build one subjective
question per sentence. Its grading endpoint scores objective answers. Its quiz
page (`frontend/src/App.jsx`) normalises whatever question records it receives
and keeps the quiz, the answers and a capped history. It grades an objective
quiz locally at once, then merges the endpoint's verdict over its own result.

This project models that core and proves what it promises:

- `Sentences`, `Keywords`, `QuizBuilder` and `NotesQuiz` model the heuristic
  quiz builder.
  - Randomness (`random.randint`, `random.shuffle`) is an explicit stream of
    draws, `Draws.Stream`.
  - Every operation that draws returns the rest of the stream.
  - An operation returns `None` only when the stream runs out before it is done.
  - Contracts name the streams that always suffice: enough draws, with fresh
    `randint(1, 99)` outcomes wherever fillers are drawn (`QuizBuilder.FreshDraws`,
    `QuizBuilder.NoCloseRepeats`). On such streams the result is `Some`, and
    the exact draws read are stated.
- `ObjectiveGrader` models the objective branch of the grading endpoint over
  decoded JSON values.
  - `GradeObjective` is its specification; `GradeObjectiveLoop` is its loop.
- `QuestionNormalizer` models the page's `normalizeQuestion`.
  - `Normalize` is its specification; `NormalizeQuestion` is its procedure.
- `LocalGrading` models the page's local grading.
  - `LocalGrade` is its specification; `GradeLocal` is its loop.
  - It also models the stored result record and the merge of the reply into it.
- `History` models the two capped, newest-first history lists.
- `Sessions` models the quiz page and the notes page as classes.
  - Their fields are the pages' state variables.
  - Their methods are the handlers; a handler that waits for a reply is split in
    two at the request.
- `Reconciliation` relates the page's local grading to the endpoint's grading
  of what the page sends.
- `Text`, `Seqs` and `Wrappers` hold string, sequence and option helpers.
  - Examples: Python `strip`, JavaScript `trim`, `parseInt`, `Map` and
    `Filter`.

The model follows the code, including these details, which are easy to expect
otherwise (string lengths are the one exception; see "Left out"):

- The question text is `q`, then `question`, then `prompt`. It is not
  `question`, `prompt`, `q`.
- A quiz request needs notes of at least 10 characters once trimmed, not 10
  non-white-space characters.
- Generation clears the previous quiz, answers and result before it checks its
  inputs. A refused request therefore does change the page.
- A string answer is kept as the trimmed answer text even when it matches an
  option.
- The index is the first matching option, which may come before the option the
  answer was copied from.
- The page has no phase enumeration and no generation tag for in-flight
  requests. It has `loading` and `graded` flags, and a late reply is applied
  whenever it arrives.
- Loading a stored quiz fills the answers for the quiz type selected now, not
  the stored type.
- A quiz enters the history when it is generated, not when it is graded.

## Model

| member | source | states |
|---|---|---|
| Text.ParseIntJs | frontend/src/App.jsx:340 | `parseInt(s, 10)` is a number exactly when a digit follows the leading white space and an optional sign; otherwise NaN (None) |
| Text.ParseIntOfIntToString | frontend/src/App.jsx:340 | `parseInt(String(n), 10)` gives `n` back for every integer `n` |
| Text.ParseIntOfDigits | frontend/src/App.jsx:426 | a string of decimal digits parses to its value |
| Text.DigitStringOfNat | backend/main.py:300 | the decimal form of a natural number passes `isdigit()` and reads back as that number |
| Text.NegativeNotDigitString | backend/main.py:300 | the decimal form of a negative number never passes `isdigit()` |
| Text.StripWithIdempotent | backend/main.py:36 | stripping a set of characters twice is stripping once |
| Text.LowerIdempotent | backend/main.py:165 | lower-casing twice is lower-casing once |
| Text.SplitJoin | backend/main.py:212 | parts free of a separator, joined with it, split back into exactly those parts |
| Draws.RandInt1To99 | backend/main.py:169 | `random.randint(1, 99)` is a number from 1 to 99 taken from the stream; None exactly when the stream is empty |
| Draws.Shuffle | backend/main.py:201 | `random.shuffle` (Fisher–Yates) gives a permutation (same multiset and length) and uses `len - 1` draws (none for one element); None exactly when fewer are left |
| Draws.ShuffleDistinctBy | backend/main.py:201 | a shuffle keeps entries with pairwise distinct keys distinct |
| Sentences.SentencesAreBoundedAndStripped | backend/main.py:34-39 | every sentence has 35 to 220 characters and no white space at either end |
| Sentences.SentencesKeepOrder | backend/main.py:34-39 | the sentences are a subsequence of the stripped pieces of the joined text, in order |
| Sentences.JoinedTextIsOneLine | backend/main.py:35-37 | the joined text holds no line boundary |
| Sentences.PiecesEndAtSentenceEnds | backend/main.py:38 | every piece the split leaves, but the last, ends with `.`, `!` or `?` |
| Sentences.PiecesHaveNoInnerCut | backend/main.py:38 | no piece holds a sentence end followed by white space |
| Sentences.PiecesDropWhiteRuns | backend/main.py:38 | the white-space run at a cut is dropped whole: no later piece starts with white space |
| Sentences.PiecesOfJoin | backend/main.py:38 | sentences joined by single spaces are cut back into exactly those sentences |
| Sentences.SentencesOfCleanNotes | backend/main.py:34-39 | notes holding one clean sentence per line give exactly those sentences, in order |
| Keywords.TokensAreTokens | backend/main.py:42 | every match of `[A-Za-z][A-Za-z\-]+` is a letter followed by one or more letters or hyphens |
| Keywords.TokensOfJoin | backend/main.py:42 | tokens written with single spaces between them are found again, in order |
| Keywords.KeptWordsShape | backend/main.py:42-46 | every counted word is a lower-case token and no stop word |
| Keywords.Distinct | backend/main.py:46 | the counter's keys are exactly the kept words |
| Keywords.DistinctOrder | backend/main.py:46 | the counter lists each word once, by first occurrence |
| Keywords.SortRanked | backend/main.py:47 | `most_common` orders by decreasing count, ties by first occurrence |
| Keywords.KeywordsAreTopRanked | backend/main.py:41-47 | `min(k, #distinct)` distinct kept words, ranked, and no word left out ranks before a keyword |
| QuizBuilder.OptionNameLower | backend/main.py:169 | a filler name `optionN` is lower case |
| QuizBuilder.KeywordPicks | backend/main.py:162-167 | the keyword loop computes the keyword distractors; they are lower-cased keywords in keyword order, distinct and none the answer |
| QuizBuilder.PickShape | backend/main.py:163-167 | the keyword loop takes distinct lower-cased keywords, none equal to the answer ignoring case, at most `needed` |
| QuizBuilder.PickPrefix | backend/main.py:163-167 | the keyword loop only appends: what it has taken stays in front |
| QuizBuilder.PickOrder | backend/main.py:163-167 | what the keyword loop appends is a subsequence of the lower-cased keywords |
| QuizBuilder.KeywordOrder | backend/main.py:162-167 | the keyword distractors appear in the same order as their keywords |
| QuizBuilder.FillConsumed | backend/main.py:168-171 | the filler loop reads a prefix of the draws, and all of them when it never completes |
| QuizBuilder.FillDistractors | backend/main.py:168-172 | the filler loop appends distinct `optionN` names other than the answer until there are `needed`, keeping the keyword picks in front; with fresh draws it returns `Some`, appending the drawn names in order and reading exactly the draws it needs |
| QuizBuilder.FillShape | backend/main.py:168-172 | whatever the draws, a completed fill has `needed` distinct lower-case entries other than the answer, the earlier ones in front and filler names after |
| QuizBuilder.FillTaken | backend/main.py:168-172 | when each of the next draws names something new, the fill takes exactly those draws, in order |
| QuizBuilder.FreshTaken | backend/main.py:169-170 | fresh draws, none naming an entry or the answer, each name something new |
| QuizBuilder.ChooseDistractors | backend/main.py:161-172 | exactly `needed` distinct lower-case distractors, none the answer: the keyword picks in keyword order, then filler names; no draw when the keywords suffice; with fresh draws and no filler-like keyword it returns `Some` and reads exactly the missing count |
| QuizBuilder.FirstLong | backend/main.py:177-179 | a keyword of at least four characters, or none when all are shorter |
| QuizBuilder.FirstLongIsFirst | backend/main.py:177-179 | the keyword found is the first one of at least four characters |
| QuizBuilder.FirstLetterRun | backend/main.py:182-183 | a run of four or more ASCII letters |
| QuizBuilder.FirstLetterRunIsFirst | backend/main.py:182-183 | the run found is the whole letter run at the first position where four or more letters start |
| QuizBuilder.ChooseAnswer | backend/main.py:175-183 | the answer search computes the answer word |
| QuizBuilder.AnswerWordShape | backend/main.py:175-183 | an answer word is non-empty letters and hyphens |
| QuizBuilder.BlankOutUntouched | backend/main.py:206 | a sentence in which the answer never stands as a whole word is left unchanged |
| QuizBuilder.BlankOutWhole | backend/main.py:206 | a sentence that is the answer word becomes `____` |
| QuizBuilder.UniqueOptions | backend/main.py:190-195 | the kept options are stripped, non-empty and distinct ignoring case; every non-blank option is seen; a non-blank first option is kept first |
| QuizBuilder.PadOptions | backend/main.py:196-199 | filler names are appended, distinct ignoring case, until there are four options, the kept ones in front; with fresh draws and no filler-like option it returns `Some`, appending the drawn names in order and reading exactly `4 - len` draws |
| QuizBuilder.PadShape | backend/main.py:196-199 | whatever the draws, completed padding has four clean options, the kept ones in front and filler names after |
| QuizBuilder.PadTaken | backend/main.py:196-199 | when each of the needed draws names a new option, the padding takes exactly those draws, in order |
| QuizBuilder.FreshPadTaken | backend/main.py:197-198 | fresh draws naming no option ignoring case each name a new option |
| QuizBuilder.NoCloseRepeatsSuffix | backend/main.py:169 | a stream without close repeats keeps that property after any number of draws |
| QuizBuilder.FirstMarked | backend/main.py:203 | the index of the first pair marked as the answer, or -1 |
| QuizBuilder.ShuffledAnswer | backend/main.py:200-204 | after the shuffle the first marked option is the answer, ignoring case |
| QuizBuilder.ShuffledGood | backend/main.py:200-204 | the shuffled options are four clean options drawn from the answer, keywords and fillers, with the answer index on the answer |
| QuizBuilder.AnswerAndDistractorsCandidates | backend/main.py:188-189 | the answer followed by its distractors are clean candidate options: the answer, then keywords, then fillers |
| QuizBuilder.CandidateOptions | backend/main.py:188-199 | the options before the shuffle: four clean options, the answer first; with fresh draws they are the answer, the keyword distractors and the drawn fillers, and exactly the missing fillers' draws are read |
| QuizBuilder.ObjectiveFromAnswer | backend/main.py:188-209 | given the answer word: four distinct options, the index on the answer, the answer text that option, the stem blanked; with fresh filler draws and three more for the shuffle it returns `Some` and reads exactly those |
| QuizBuilder.MakeObjective | backend/main.py:174-209 | without an answer word: the sentence with options A–D and index -1, no draw; otherwise four distinct options, the index on the answer, the answer text that option, and the stem the sentence with the answer blanked out; `Some` whenever the filler draws are fresh and the shuffle's three follow |
| NotesQuiz.MakeSubjective | backend/main.py:211-213 | a subjective question whose reference answer is the sentence |
| NotesQuiz.SubjectiveQuestion | backend/main.py:212 | the question is the prefix, the sentence up to its first full stop, and a full stop |
| NotesQuiz.SubjectiveWhole | backend/main.py:212 | a sentence without a full stop is asked whole |
| NotesQuiz.RepairObjective | backend/main.py:223-235 | fewer than four options are padded to four with filler names, one draw each; `Some` exactly when the stream holds that many draws; a falsy answer text becomes the option at an in-range index, else None |
| NotesQuiz.BuiltNeedsNoRepair | backend/main.py:223-235 | questions built from sentences already have four options and an answer text unless the index is -1 |
| NotesQuiz.ObjectiveQuestion | backend/main.py:221-236 | one objective item per sentence, repaired, is the question built from the sentence; with fresh filler draws it is `Some` and reads exactly the question's draws |
| NotesQuiz.SentenceQuestion | backend/main.py:221-238 | the question of one pool sentence: objective and repaired, or subjective with no draw; `Some` on a stream without close repeats holding six draws, which it leaves without close repeats and at most six draws shorter |
| NotesQuiz.Placeholder | backend/main.py:240-244 | the objective placeholder has four options and its answer text is the option at its index; the subjective one has an empty answer |
| NotesQuiz.PoolQuestions | backend/main.py:218-239 | the pool loop gives one question per sentence, in order, stopping after `count` (at least one when the pool is not empty); never `None` for a subjective quiz, nor on a stream without close repeats holding six draws per question |
| NotesQuiz.PadQuiz | backend/main.py:240-244 | the questions stay in front and placeholders fill up to `count` |
| NotesQuiz.QuizFromPool | backend/main.py:218-245 | the quiz from shuffled sentences: `count` items (one for a count below one when there is a sentence), built from the sentences in order, placeholders after; a subjective quiz never runs out of draws, nor does any quiz on a stream without close repeats holding six draws per question |
| NotesQuiz.ShuffledQuiz | backend/main.py:216-245 | the quiz from the shuffled sentences; `Some` for a subjective quiz once the shuffle's draws are there, and for any quiz on a stream without close repeats holding the shuffle's draws and six per question |
| NotesQuiz.BuildQuizFromNotes | backend/main.py:215-245 | the quiz is built from the shuffled sentences of the notes as above, with the same sufficient streams |
| NotesQuiz.BuiltFromAt | backend/main.py:220-238 | every built item is the question of the sentence at its position |
| NotesQuiz.ObjectiveQuizHasFourOptions | backend/main.py:221-242 | every question of an objective quiz, built or padded, is objective with exactly four options |
| History.Prepend | frontend/src/App.jsx:167 | `[e, ...h].slice(0, cap)`: the new entry first, the old ones after it in order, at most `cap` |
| History.Delete | frontend/src/App.jsx:190-192 | no entry with the id is left |
| History.DeleteMembers | frontend/src/App.jsx:190-192 | exactly the entries with another id are kept |
| History.DeleteKeepsOrder | frontend/src/App.jsx:190-192 | the kept entries keep their order |
| History.DeleteAbsent | frontend/src/App.jsx:190-192 | deleting an id no entry has changes nothing |
| History.DeleteIdempotent | frontend/src/App.jsx:190-192 | deleting twice is deleting once |
| History.DeleteNewest | frontend/src/App.jsx:167 | deleting a just-added entry with a fresh id gives back the earlier entries that survived the cut |
| History.PrependAllKeepsNewest | frontend/src/App.jsx:404 | after several additions the history is the newest `cap` entries, newest first |
| History.NotesHistoryCap | frontend/src/App.jsx:167 | 41 notes added to an empty history leave the newest 40, the oldest evicted |
| QuestionNormalizer.Cap | frontend/src/App.jsx:337 | at most four options, the first ones in order |
| QuestionNormalizer.ExplicitIndex | frontend/src/App.jsx:339-342 | an explicit index is used only when it parses and lies in range |
| QuestionNormalizer.MatchFrom | frontend/src/App.jsx:347 | the first option equal to the answer after trimming and lower-casing, or -1 |
| QuestionNormalizer.NonWordPrefixLength | frontend/src/App.jsx:358 | the greedy `\W+` run stops at the first word character |
| QuestionNormalizer.ResolveAnswer | frontend/src/App.jsx:338-353 | the resolved index is -1 or names one of the options |
| QuestionNormalizer.Normalize | frontend/src/App.jsx:331-364 | at most four options and an answer index of -1 or in range of them; the raw record is kept |
| QuestionNormalizer.FindMatchingOption | frontend/src/App.jsx:347 | the `findIndex` search computes the first matching option |
| QuestionNormalizer.DetectOptions | frontend/src/App.jsx:356-360 | the line loop computes the captures of the lettered lines |
| QuestionNormalizer.CollectOptions | frontend/src/App.jsx:333-337 | the listed options, capped at four |
| QuestionNormalizer.ResolveAnswerIndex | frontend/src/App.jsx:338-353 | the resolution block computes the specified index and text |
| QuestionNormalizer.NormalizeQuestion | frontend/src/App.jsx:331-364 | the procedure computes `Normalize`: at most four options and an index of -1 or in range |
| QuestionNormalizer.FallbackOptionsHaveNoAnswer | frontend/src/App.jsx:354-362 | with no listed options the index is -1; at least two lettered lines of `raw` become the options, else there are none |
| QuestionNormalizer.ListedOptionsAreKept | frontend/src/App.jsx:333-337 | listed options are kept in order, up to four |
| QuestionNormalizer.ExplicitIndexWins | frontend/src/App.jsx:339-344 | an in-range `answer_index` is the index and leaves the answer text unset |
| QuestionNormalizer.TextAnswerMatchesFirstOption | frontend/src/App.jsx:345-348 | a non-blank string answer is the trimmed answer text; the index is the first option equal to it ignoring case, or -1 when none is |
| QuestionNormalizer.NumericAnswerInRange | frontend/src/App.jsx:349-351 | a numeric answer in range is the index, else -1 |
| QuestionNormalizer.NoAnswerGiven | frontend/src/App.jsx:338-353 | with no usable index and no answer the index is -1 and the text unset |
| QuestionNormalizer.TextAnswerRoundTrip | frontend/src/App.jsx:343-348 | an answer equal to its k-th option gives an index at most k naming an option equal to the answer |
| QuestionNormalizer.LetteredLine | frontend/src/App.jsx:358 | a line `X) word` captures `word` |
| QuestionNormalizer.UnletteredLine | frontend/src/App.jsx:358 | a line not starting with A–D is no option line |
| QuestionNormalizer.LinesOfJoin | frontend/src/App.jsx:335 | trimmed lines survive joining with line feeds, splitting, trimming and filtering |
| QuestionNormalizer.RawTextFallback | frontend/src/App.jsx:354-362 | the lettered lines of `raw` become the options when there are at least two, and there is no index |
| QuestionNormalizer.MixedLinesDetected | frontend/src/App.jsx:355-360 | among a question line, three lettered lines and a note, the lettered lines are detected in order |
| LocalGrading.ExpectedIndex | frontend/src/App.jsx:425 | the answer index when non-negative, else -1 |
| LocalGrading.GivenIndex | frontend/src/App.jsx:426 | a chosen option is itself; typed text goes through `parseInt` |
| LocalGrading.GradeItem | frontend/src/App.jsx:425-429 | correct exactly when the expected index is non-negative and the given index equals it |
| LocalGrading.Items | frontend/src/App.jsx:424-430 | one graded item per question |
| LocalGrading.GradeLocal | frontend/src/App.jsx:420-432 | the grading loop computes `LocalGrade` |
| LocalGrading.ItemsAt | frontend/src/App.jsx:424-430 | item `j` is question `j` graded against answer `j` |
| LocalGrading.CountCorrectIsCardinality | frontend/src/App.jsx:428 | `correct` is the number of items marked correct |
| LocalGrading.RoundedPercentIsNearest | frontend/src/App.jsx:431 | the score is the integer nearest `100 * correct / max(1, total)`, halves up |
| LocalGrading.RoundedPercentBounds | frontend/src/App.jsx:431 | the score lies in 0..100; all correct scores 100, none correct scores 0 |
| LocalGrading.LocalGradeMeaning | frontend/src/App.jsx:420-432 | one result per question in order, each correct exactly when expected ≥ 0 and given = expected; counts and score consistent |
| LocalGrading.EmptyWrittenReadsMinusOne | frontend/src/App.jsx:426 | an empty typed answer reads as -1 |
| LocalGrading.TwoOfThreeExample | frontend/src/App.jsx:420-432 | expected 1, -1, 2 against 1, 0, 2: two of three correct, score 67 |
| LocalGrading.ResultRecord | frontend/src/App.jsx:432 | the record has exactly the fields score, correct, total and results, one result per item |
| LocalGrading.Merge | frontend/src/App.jsx:446 | the reply's fields replace the same-named ones; other fields of the previous record stay |
| LocalGrading.MergeIdempotent | frontend/src/App.jsx:446 | merging the same reply twice is merging it once |
| LocalGrading.MergeReplacesCoveredRecord | frontend/src/App.jsx:446 | a reply with every field of the record replaces it |
| Sessions.CheckGenerate | frontend/src/App.jsx:373-390 | a request goes out only with a count in 1..20 and notes of at least 10 characters (not UTF-16 code units) once trimmed |
| Sessions.CheckGenerateAcceptsExactly | frontend/src/App.jsx:373-390 | the request goes out exactly when the count is in 1..20 and the trimmed notes have at least 10 characters (not UTF-16 code units); the count is checked first |
| Sessions.TypedCount | frontend/src/App.jsx:373-374 | a typed integer is accepted exactly when it is from 1 to 20 |
| Sessions.BlankCountRefused | frontend/src/App.jsx:373-374 | a blank count is refused |
| Sessions.FreshAnswers | frontend/src/App.jsx:402 | one slot per question, -1 for an objective quiz and "" otherwise |
| Sessions.Preview | frontend/src/App.jsx:404 | the first 250 characters of the notes |
| Sessions.SentQuiz | frontend/src/App.jsx:439 | each question sent as its text, options and answer index |
| Sessions.SentAnswers | frontend/src/App.jsx:440 | each answer sent as its chosen index, or -1 |
| Sessions.QuizSession.constructor | frontend/src/App.jsx:302-317 | the page opens empty with the stored history |
| Sessions.QuizSession.ChooseType | frontend/src/App.jsx:497 | only the quiz type changes |
| Sessions.QuizSession.BeginGenerate | frontend/src/App.jsx:366-390 | quiz, answers and result are cleared, the inputs checked, and the page stays loading only when the request goes out |
| Sessions.QuizSession.FinishGenerate | frontend/src/App.jsx:396-409 | the received records are normalised, fresh answers made, and the quiz put first in the 50-entry history; a failure keeps the quiz |
| Sessions.QuizSession.SelectOption | frontend/src/App.jsx:412-414 | choosing an option for a question changes that answer slot only and keeps one answer slot per question |
| Sessions.QuizSession.TypeAnswer | frontend/src/App.jsx:595-597 | typing an answer to a question changes that answer slot only and keeps one answer slot per question |
| Sessions.QuizSession.SubmitGrade | frontend/src/App.jsx:416-456 | an objective quiz is graded locally, stored and marked graded, and sent with integer answers; a subjective one is only sent |
| Sessions.QuizSession.ReceiveObjectiveGrade | frontend/src/App.jsx:444-447 | a successful reply is merged over the local result; otherwise the local result stays |
| Sessions.QuizSession.ReceiveSubjectiveGrade | frontend/src/App.jsx:456-460 | a successful reply becomes the result and the quiz is graded |
| Sessions.QuizSession.LoadFromHistory | frontend/src/App.jsx:469-474 | the stored questions, fresh answers for the current type, no result |
| Sessions.NotesSession.constructor | frontend/src/App.jsx:107-125 | the page opens empty with the stored history |
| Sessions.NotesSession.BeginGenerate | frontend/src/App.jsx:130-136 | the error is cleared and loading starts when a file is chosen; without one the message is shown and nothing starts |
| Sessions.NotesSession.FinishGenerate | frontend/src/App.jsx:154-172 | the notes are shown and recorded first in the 40-entry history; a failure shows its message |
| Sessions.NotesSession.LoadHistoryItem | frontend/src/App.jsx:186-188 | the stored notes are shown |
| Sessions.NotesSession.DeleteHistory | frontend/src/App.jsx:190-192 | every entry with the id is removed, the rest kept |
| ObjectiveGrader.Get | backend/main.py:293-297 | a key is missing exactly when no member has it; a present key's value is one of its members |
| ObjectiveGrader.GetFindsLast | backend/main.py:293-297 | with a repeated key, the last value wins, as `json.loads` leaves it |
| ObjectiveGrader.FirstTruthy | backend/main.py:296 | `a or b or ""`: the first truthy value, or "" |
| ObjectiveGrader.OptionItems | backend/main.py:297-298 | falsy options iterate as nothing; a list iterates as its items |
| ObjectiveGrader.PyStr | backend/main.py:299-300 | `str` of a string is itself and of an int its decimal form; only a list or a dict has no string form here |
| ObjectiveGrader.FirstMatch | backend/main.py:298-299 | the first option that matches the answer text, or -1 |
| ObjectiveGrader.MatchOption | backend/main.py:298-299 | the option loop stops at the first match |
| ObjectiveGrader.ExpectedIndexOf | backend/main.py:291-299 | the index computation: an int `answer_index`, else an int `answer`, else the matching option |
| ObjectiveGrader.GradeOne | backend/main.py:290-303 | an exception exactly when the options cannot be iterated or the answer is missing; correct exactly when the user's index equals a non-negative expected index |
| ObjectiveGrader.GradeObjectiveLoop | backend/main.py:287-303 | the grading loop computes `GradeObjective` |
| ObjectiveGrader.GradeItems | backend/main.py:290-303 | on success, one outcome per question |
| ObjectiveGrader.GradeItemsFails | backend/main.py:290-303 | grading raises exactly when some question cannot be graded |
| ObjectiveGrader.GradeItemsAt | backend/main.py:290-303 | outcome `j` is question `j` graded |
| ObjectiveGrader.GradeReportMeaning | backend/main.py:287-303 | one outcome per question, correct exactly when user index = expected ≥ 0; `correct` ≤ `total` |
| ObjectiveGrader.CountCorrectIsCardinality | backend/main.py:302 | `correct` is the number of outcomes marked correct |
| ObjectiveGrader.IntIndexWins | backend/main.py:293 | an int `answer_index` is the expected index |
| ObjectiveGrader.TextAnswerIndex | backend/main.py:296-299 | without int indices, the first option matching the answer text is the expected index |
| ObjectiveGrader.NonObjectNeverCorrect | backend/main.py:291-292 | a question that is not an object expects -1 and is never correct |
| ObjectiveGrader.UserIndexOfInt | backend/main.py:300 | a non-negative int answer is itself, a negative one -1 |
| ObjectiveGrader.UserIndexOfDigits | backend/main.py:300 | a string answer counts only when it is a run of decimal digits |
| Reconciliation.SentJson | frontend/src/App.jsx:439-441 | a sent question decodes to an object whose last member is its `answer_index`; an undefined `q` is left out |
| Reconciliation.SentIndexIsExpected | frontend/src/App.jsx:439 | the endpoint expects exactly the answer index the page sends |
| Reconciliation.ChoiceGradedAlike | frontend/src/App.jsx:424-440 | against a chosen option, both gradings give the same verdict for a question |
| Reconciliation.ChoiceAnswersAgree | frontend/src/App.jsx:420-446 | with every answer a chosen option, the endpoint succeeds with the page's `correct`, `total` and per-question verdicts |
| Reconciliation.WrittenAnswerDisagrees | frontend/src/App.jsx:426-440 | a typed "1" is correct on the page but sent as -1, so the endpoint marks it wrong |

## Left out

- The network, `fetch`, `localStorage`, timers, `alert` and the rendering are left out. Replies, ids and timestamps are parameters.
- PDF extraction, OCR, the language-model providers, the notes endpoints and smart notes are left out. They call code outside this model.
- Subjective grading on the endpoint (`backend/main.py:305-323`) is left out. It scores with `difflib` similarity ratios over floating point.
- The endpoint's float score `round(100 * correct / max(1, total), 2)` is left out. Floating point is not modelled; `correct` and `total` are.
- The endpoint's JSON rendering of its reply is left out. The reply reaches the page as a parameter.
- `str()` of a list or a dict (its `repr`) is left out. `ObjectiveGrader.PyStr` returns None there, and such an option or answer never matches.
- `ObjectiveGrader.PyStr`: a float is carried as its `repr` text and compared as text.
- `Sessions.CheckGenerateAcceptsExactly`: the notes' length is counted in characters. The page's `notes.trim().length` counts UTF-16 code units, so a character outside the Basic Multilingual Plane counts twice there. Five such emoji pass the page's check of 10 but not the model's.
- `Sessions.CheckGenerate`: the same difference. Its "at least 10 once trimmed" counts characters, not UTF-16 code units.
- `Sessions.Preview`: the first 250 characters, where the page's `slice(0, 250)` takes 250 UTF-16 code units and can split a surrogate pair.
- `QuestionNormalizer.LetteredLine` and `QuestionNormalizer.DetectOptions` (through `QuestionNormalizer.LetteredContent`): the option pattern has no `u` flag, so on the page `\W+` steps over UTF-16 code units. On the line `A😀` the page takes the high surrogate as the separator and captures the low one; the model, stepping over characters, detects no option there.
- Text case and character classes are ASCII only: `lower()`, `toLowerCase()`, `isdigit()`, `\w`, `\b` and `re.I`.
- The white-space sets of Python and JavaScript are each modelled as a fixed list of characters.
- `random.randint(1, 99)` is one draw reduced to 1..99. Python's generator and its rejection sampling are not modelled.
- `random.shuffle` is Fisher–Yates with one draw per step. The draws are not tied to Python's generator.
- A drawing operation on a stream that runs out before it is done returns None and promises only the stream it left (empty). A real generator never runs out; the contracts state which finite streams suffice.
- `NotesQuiz.PoolQuestions`, `NotesQuiz.QuizFromPool`, `NotesQuiz.ShuffledQuiz`, `NotesQuiz.BuildQuizFromNotes`: the sufficient stream for an objective quiz (no close repeats, six draws per question) is a simple bound, not the least one. A question can read fewer draws, and a stream with close repeats can still suffice.
- The repair step that recomputes a non-integer `answer_index` (`backend/main.py:227-231`) is left out. Every item the builder makes carries an integer index, so the step cannot fire.
- `re.error` in the stem substitution is left out. An escaped answer word always compiles.
- `QuizBuilder.BlankOut` requires a non-empty word. The answer word is never empty where it is called.
- Quiz replies whose `quiz` field is not an array are modelled as no records, as the page's `Array.isArray` check treats them.
- Raw question records are modelled as JSON objects, on the keys normalisation reads. JSON numbers are integers here. A `null` record, which makes `normalizeQuestion` throw, is not modelled.
- `Sessions.QuizSession.SelectOption` requires a question index within the quiz, as the page's option buttons give. A JavaScript write beyond the end would grow the array.
- `Sessions.QuizSession.TypeAnswer` requires a question index within the quiz, for the same reason.
- `Sessions.QuizSession.FinishGenerate` does not model the normalisation loop as a method. It assigns `Map(raws, Normalize)`, and `QuestionNormalizer.NormalizeQuestion` is proved equal to `Normalize`.
- A notes reply whose `markdown` field is truthy but not a string is not modelled. The reply carries a string, or nothing when the field is absent or falsy.
- The grading endpoint's quiz must decode to a list and its answers to a list. Other JSON shapes are not modelled.
- A quiz question whose options are neither falsy, a list, a string nor a dict makes `ObjectiveGrader.OptionItems` None. Python raises `TypeError` there, which the model reports as `NotIterable`.
