# quizmaster-ak, the logic of the quiz app in Dafny

This project models the logic of the quizmaster-ak quiz application and proves properties of it:

- **QuizCreator**: the bulk import of the quiz creator. Pasted text is cut into question blocks where a
  `Q1.` / `1)` / `Question 1:` header starts a line, after optional blanks. Each block becomes a question when it has a question
  line, at least two option lines `A)`..`D)`, and a correct answer. The answer comes from a marked option
  (a check mark or a `[correct]`/`(correct)` word) or from an `Answer:` line. An optional `Explanation:`
  can run over several lines. The input-length gate runs the parser only above 20 characters and reports
  an error only above 50. The regular expressions are written out as explicit matchers in
  **ParserPatterns**, and JavaScript's whitespace, `trim`, `split` and case folding are in **JsText**.
- **MathText** and **MathRender**: the `MathText` component's tokenizer. It cuts a text into plain text and
  LaTeX segments delimited by `$$…$$`, `\[…\]`, `$…$` or `\(…\)`. The earliest match wins, and on a tie the
  pattern listed first wins. HTML escaping and the rendering of the segments are in MathRender.
- **Progress**: `useQuizProgress`, the saved attempts (at most 50, newest first), the best score per
  category, the quiz count and the day streak.
- **Timer**: `useTimer`, the per-question countdown, as a class. Its `Tick` is the one-second interval.
- **Player**: the `QuizPlayer` page as a class. It records one answer per question, either the user's choice
  or a time-out, and keeps the total time as the sum of the recorded times.
- **Results**: the `QuizResults` page, covering grade bands, confetti choice and the set of expanded
  questions.
- **Home**: the `QuizHome` page as a class. It covers switching views, listing the categories with search
  and filter, saving and deleting custom quizzes, and recording a finished quiz.

Shared records (`QuizOption`, `QuizQuestion`, `QuizCategory`, `QuizAttempt`, `UserAnswer`, `QuizProgress`)
are in **QuizTypes**. Stateful pages and hooks are classes whose methods update their fields. The parser,
the tokenizer and the progress updates are functions, and each loop of the source is a method proved
equal to its function.

Behaviour of the code as written, kept in the model:

- "Delhi [correct]" is marked correct, but its stored text is "Delhi []". The word pattern already
  consumes `correct)` and leaves the brackets behind.
- "Correct Answer is B" sets the answer to `A`. The alternative `correct` matches first and takes the
  `A` of "Answer".
- "Answer: Delhi" sets the answer to `D`.
- Duplicate option letters are all kept. Nothing checks that the answer letter names one of the kept
  options.
- A bold header such as `**2) Who…` on a later line starts no block: the splitter admits only blanks
  before the number, and leading stars are removed only from a block's first line. The bold line matches
  no option, answer or explanation pattern and is dropped, so the next question's options and answer
  join the previous block, which is then cut to four options and takes the last answer.
- The explanation loop has two `break`s: one at an option-looking line and one at an answer line. They
  are modelled as one stop test, `EndsExplanation`, which has the same effect.

## Model

| member | source | states |
|---|---|---|
| QuizCreator.Starts | src/pages/QuizCreator.tsx:33 | position k is flagged exactly when a question header starts a line there |
| QuizCreator.SplitFrom | src/pages/QuizCreator.tsx:32-33 | the pieces concatenate back to the text from the block start |
| QuizCreator.SplitFromCuts | src/pages/QuizCreator.tsx:32-33 | every piece after the first begins at a split point, and no piece contains one |
| QuizCreator.SplitBlocks | src/pages/QuizCreator.tsx:32-33 | the blocks concatenate back to the whole input |
| QuizCreator.SplitBlocksCuts | src/pages/QuizCreator.tsx:32-33 | the blocks partition the input, and each later block starts at a header |
| QuizCreator.NonBlank | src/pages/QuizCreator.tsx:34 | only blocks that are not blank after trimming survive |
| QuizCreator.NonBlankLines | src/pages/QuizCreator.tsx:41-44 | every kept line is non-empty with no space at either end |
| QuizCreator.BlockLines | src/pages/QuizCreator.tsx:37-44 | the lines of a block are non-empty and trimmed |
| QuizCreator.Classify | src/pages/QuizCreator.tsx:63-114 | a line is an option line iff the option pattern matches, else an answer line iff an answer pattern matches, else an explanation line iff the explanation pattern matches |
| QuizCreator.OptionText | src/pages/QuizCreator.tsx:72-92 | the stored text has only characters of the body, and no check mark when the option was marked |
| QuizCreator.OptionTextChars | src/pages/QuizCreator.tsx:72-92 | clean-up stages only drop characters, and a marker-free stage stays marker-free |
| QuizCreator.MakeOption | src/pages/QuizCreator.tsx:71-94 | the option id is one of A to D, and a marked option's text carries no check mark |
| QuizCreator.OptionRecord | src/pages/QuizCreator.tsx:66-94 | the option record and marker flag of an option line are those of the reference definitions |
| QuizCreator.Kinds | src/pages/QuizCreator.tsx:63-64 | every line is classified on its own |
| QuizCreator.Stops | src/pages/QuizCreator.tsx:120-121 | a line stops the explanation iff it looks like an option or gives an answer |
| QuizCreator.Step | src/pages/QuizCreator.tsx:66-107 | a non-explanation line never changes the explanation |
| QuizCreator.OptionsOfAppend | src/pages/QuizCreator.tsx:94 | options of consecutive lines are appended in line order |
| QuizCreator.LastSignalAppend | src/pages/QuizCreator.tsx:81-82 | the answer after two runs of lines is that of the second run started from the first run's answer: last write wins |
| QuizCreator.StepSpec | src/pages/QuizCreator.tsx:81-107 | one line adds its option and sets the answer per the reference definitions |
| QuizCreator.ExplanationStart | src/pages/QuizCreator.tsx:111-125 | the scan ends at an explanation line or at the end of the block |
| QuizCreator.ExplanationStartFirst | src/pages/QuizCreator.tsx:111-125 | no line before it is an explanation line, so it is the first one |
| QuizCreator.ScanLines | src/pages/QuizCreator.tsx:63-126 | definition with no ensures: the loop over the lines after the question line, from a draft, ending at the first explanation line; its meaning is given by ScanLinesOptions, ScanLinesAnswer and ScanLinesExplanation |
| QuizCreator.ScanLinesOptions | src/pages/QuizCreator.tsx:63-96 | the options are those of the lines before the first explanation line, in line order, duplicates kept |
| QuizCreator.ScanLinesAnswer | src/pages/QuizCreator.tsx:81-107 | the answer is set by the last marked option or answer line before the first explanation line |
| QuizCreator.ScanLinesExplanation | src/pages/QuizCreator.tsx:111-125 | the explanation is the first explanation line's text joined with the following lines up to a stop, or unchanged when there is none |
| QuizCreator.TailStep | src/pages/QuizCreator.tsx:117-122 | a line that does not stop the explanation joins it after one space |
| QuizCreator.TailEnd | src/pages/QuizCreator.tsx:116-121 | the explanation is complete at a stopping line or at the end of the block |
| QuizCreator.CollectExplanation | src/pages/QuizCreator.tsx:116-123 | the loop computes the seed followed by the joined tail lines |
| QuizCreator.ExplanationTextNotEmpty | src/pages/QuizCreator.tsx:111-115 | an explanation taken from a trimmed line is never empty |
| QuizCreator.PadOptions | src/pages/QuizCreator.tsx:131-134 | exactly four options when fewer were found, the found ones first and unchanged, the placeholders are letters A to D with text "-" |
| QuizCreator.Assemble | src/pages/QuizCreator.tsx:131-142 | the record has four options (found ones then placeholders), the given id, question and answer, and the default explanation when none was found |
| QuizCreator.AssembleQuestion | src/pages/QuizCreator.tsx:129-142 | the padding loop builds the record of the reference definition |
| QuizCreator.Candidate | src/pages/QuizCreator.tsx:129 | a block is a candidate iff it has a question, two options and an answer |
| QuizCreator.BlockQuestion | src/pages/QuizCreator.tsx:36-143 | a block yields a record iff it is a candidate, and the record is well formed and carries the given id |
| QuizCreator.BlockQuestionOf | src/pages/QuizCreator.tsx:37-143 | the record of a block is assembled from its question text and line scan exactly when accepted |
| QuizCreator.BlockAccepted | src/pages/QuizCreator.tsx:37-129 | both directions: accepted iff two or more lines, a non-empty question, two or more option lines and an answer before the first explanation line |
| QuizCreator.BlockRecord | src/pages/QuizCreator.tsx:49-142 | an accepted block's record has its question text, its options padded and cut to four, and the answer of the last answer-giving line |
| QuizCreator.DraftExplanation | src/pages/QuizCreator.tsx:111-125 | the collected explanation is empty exactly when the block has no explanation line |
| QuizCreator.BlockExplanation | src/pages/QuizCreator.tsx:111-141 | an accepted block's explanation is its explanation text, or the default when it has none |
| QuizCreator.NoLinesInEmptyBlock | src/pages/QuizCreator.tsx:37-38 | an empty block has no lines and is skipped |
| QuizCreator.ParseBlock | src/pages/QuizCreator.tsx:37-143 | the loop body yields exactly the block's record |
| QuizCreator.Candidates | src/pages/QuizCreator.tsx:36-143 | one entry per block, every present one accepted |
| QuizCreator.NumberFacts | src/pages/QuizCreator.tsx:136-142 | the records are numbered consecutively and are well formed |
| QuizCreator.NumberAppend | src/pages/QuizCreator.tsx:136-137 | numbering counts accepted blocks only: the second part is numbered on from where the first stopped |
| QuizCreator.NumberOne | src/pages/QuizCreator.tsx:136-142 | a single candidate yields its record exactly when present |
| QuizCreator.NumberSnoc | src/pages/QuizCreator.tsx:136-142 | one more block adds its record, numbered one past the records so far, exactly when accepted |
| QuizCreator.NumberStep | src/pages/QuizCreator.tsx:36-142 | one round of the block loop extends the numbered records by the block's record |
| QuizCreator.ParseBlocks | src/pages/QuizCreator.tsx:36-147 | at most one record per block, ids 1, 2, 3, … in order, every record well formed |
| QuizCreator.ScanBlockLines | src/pages/QuizCreator.tsx:63-126 | the line loop computes the draft of the reference scan |
| QuizCreator.Parse | src/pages/QuizCreator.tsx:27-150 | definition with no ensures: the records of the non-blank blocks, numbered from 1; ParseBlocks gives its ids and well-formedness, ParseQuestions equals it |
| QuizCreator.ParseQuestions | src/pages/QuizCreator.tsx:27-150 | the imperative parser computes the reference parse of the text |
| QuizCreator.BulkInputGate | src/pages/QuizCreator.tsx:152-168 | nothing is parsed up to 20 trimmed characters; above that the parse, with the error exactly when nothing parsed and over 50 characters |
| QuizCreator.BulkInputForm.constructor | src/pages/QuizCreator.tsx:23-25 | empty input, no parsed questions, no error |
| QuizCreator.BulkInputForm.HandleBulkInputChange | src/pages/QuizCreator.tsx:152-168 | stores the text and sets the parsed questions and the error from the gate |
| ParserPatterns.StarsAt | src/pages/QuizCreator.tsx:51 | a maximal run of at most `max` stars |
| ParserPatterns.LastDotStart | src/pages/QuizCreator.tsx:51 | the backtracking start of a greedy capture: the last non-terminator position in the range |
| ParserPatterns.DotRun | src/pages/QuizCreator.tsx:67 | a maximal run of non-line-terminators |
| ParserPatterns.NumberedHeader | src/pages/QuizCreator.tsx:33 | a numbered header ends with one of `.`, `:` or `)` |
| ParserPatterns.WordHeader | src/pages/QuizCreator.tsx:33 | a word header begins with the word "question", any case |
| ParserPatterns.QuestionPrefixLength | src/pages/QuizCreator.tsx:50-52 | a removed prefix is a numbered or word header after optional stars |
| ParserPatterns.QuestionText | src/pages/QuizCreator.tsx:49-54 | the question text is trimmed and no longer than the line |
| ParserPatterns.OptionMatch | src/pages/QuizCreator.tsx:67-69 | a match has a letter A to D (any case) and a non-empty body of one line |
| ParserPatterns.RemoveCheckMarks | src/pages/QuizCreator.tsx:85 | no check mark is left, text without one is unchanged, nothing is added |
| ParserPatterns.CorrectWordEnd | src/pages/QuizCreator.tsx:86-87 | a match spans at least the seven letters of "correct" |
| ParserPatterns.RemoveCorrectWords | src/pages/QuizCreator.tsx:86-87 | only removes characters |
| ParserPatterns.RemoveCorrectWordsNoC | src/pages/QuizCreator.tsx:86-87 | a text without a letter c is left alone |
| ParserPatterns.CleanMarkers | src/pages/QuizCreator.tsx:84-88 | no check mark is left, and nothing is added |
| ParserPatterns.StripWrapStars | src/pages/QuizCreator.tsx:92 | only removes characters |
| ParserPatterns.AnswerAfter | src/pages/QuizCreator.tsx:102-103 | the captured letter is A to D |
| ParserPatterns.KeywordEnd | src/pages/QuizCreator.tsx:102-103 | a keyword match ends after the keyword |
| ParserPatterns.AnswerFrom | src/pages/QuizCreator.tsx:102-103 | an answer found by any alternative is a letter A to D |
| ParserPatterns.AnswerLetter | src/pages/QuizCreator.tsx:102-105 | an answer line gives a letter A to D |
| ParserPatterns.AnswerWordTakesInitial | src/pages/QuizCreator.tsx:103 | "Answer: Delhi" gives the answer D |
| ParserPatterns.AnswerAlternativeMatches | src/pages/QuizCreator.tsx:103 | the `answer` alternative matches "Answer: Delhi" and captures D |
| ParserPatterns.CorrectAnswerFallsBack | src/pages/QuizCreator.tsx:103 | "Correct Answer is B" gives the answer A |
| ParserPatterns.AnswerAlternativeFails | src/pages/QuizCreator.tsx:103 | the `answer` alternative does not match at the start of "Correct Answer is B" |
| ParserPatterns.CorrectAnswerAlternativeFails | src/pages/QuizCreator.tsx:103 | the `correct answer` alternative matches but captures no letter |
| ParserPatterns.CorrectAlternativeMatches | src/pages/QuizCreator.tsx:103 | the `correct` alternative captures the A of "Answer" |
| ParserPatterns.ExplanationAfter | src/pages/QuizCreator.tsx:111-112 | a captured explanation is non-empty |
| ParserPatterns.ExplanationFrom | src/pages/QuizCreator.tsx:111-112 | a captured explanation is non-empty |
| ParserPatterns.ExplanationBody | src/pages/QuizCreator.tsx:111-112 | a captured explanation is non-empty |
| ParserPatterns.ExplanationAfterNotBlank | src/pages/QuizCreator.tsx:111-115 | from a trimmed line, the trimmed capture is not blank |
| ParserPatterns.ExplanationFromAfter | src/pages/QuizCreator.tsx:111-112 | a match by some keyword is the capture after some position |
| ParserPatterns.ExplanationFromNotBlank | src/pages/QuizCreator.tsx:111-115 | from a trimmed line, the trimmed capture is not blank |
| ParserPatterns.ExplanationBodyNotBlank | src/pages/QuizCreator.tsx:111-115 | from a trimmed line, the trimmed explanation is not blank |
| ParserPatterns.TightOptionDoesNotStop | src/pages/QuizCreator.tsx:68-120 | "A)Delhi" is an option line, yet it does not end an explanation |
| ParserPatterns.BoldHeaderStartsNoBlock | src/pages/QuizCreator.tsx:33 | a `**2)` header on a later line is no split point, while the same header without stars is |
| ParserPatterns.BracketMarkerCounts | src/pages/QuizCreator.tsx:77-78 | `[correct]` glued to a word marks it, `(correct)` glued to a word does not |
| JsText.Trim | src/pages/QuizCreator.tsx:37 | the trimmed text is the middle of the input with no space at either end, empty exactly when all space |
| JsText.Split | src/pages/QuizCreator.tsx:41 | the pieces contain no separator and join back to the input |
| JsText.Utf16Length | src/pages/QuizCreator.tsx:155 | a string's length in code units lies between its code points and twice that |
| MathText.CloseFrom | src/components/ui/MathText.tsx:129-138 | the lazy capture stops at the first closing delimiter, every character before it allowed |
| MathText.CloseAt | src/components/ui/MathText.tsx:129-138 | a match at a position is delimited by the pattern's opening and closing strings |
| MathText.FirstAt | src/components/ui/MathText.tsx:142-144 | the first position at which a pattern matches, and no match before it |
| MathText.SpanOfDelimited | src/components/ui/MathText.tsx:113-118 | the matched text is the opening delimiter, the content and the closing delimiter |
| MathText.MatchAt | src/components/ui/MathText.tsx:144-150 | the match record has the position, the delimited text, the content and the pattern's display flag |
| MathText.PatternMatch | src/components/ui/MathText.tsx:142-144 | a found match is a match of that pattern |
| MathText.PatternMatchLeftmost | src/components/ui/MathText.tsx:142-144 | no match of the pattern starts before the one returned |
| MathText.Earliest | src/components/ui/MathText.tsx:142-153 | the earliest candidate is one of the candidates |
| MathText.EarliestNone | src/components/ui/MathText.tsx:142-153 | none is found iff no pattern matches |
| MathText.EarliestMinimal | src/components/ui/MathText.tsx:145 | the earliest starts no later than any candidate |
| MathText.EarliestFirst | src/components/ui/MathText.tsx:145 | on a tie the candidate listed first wins, because the comparison is strict |
| MathText.EarliestStep | src/components/ui/MathText.tsx:142-153 | one round of the loop folds the next candidate in |
| MathText.Candidates | src/components/ui/MathText.tsx:129-144 | one candidate per pattern, in table order |
| MathText.FindNext | src/components/ui/MathText.tsx:124-156 | a found match is a non-empty span of the text, display math exactly when delimited by `$$` or `\[` |
| MathText.FoundAmongPatterns | src/components/ui/MathText.tsx:124-156 | any candidate is a non-empty span with its display flag right |
| MathText.DelimitedIffDisplay | src/components/ui/MathText.tsx:129-138 | a pattern's match is display math exactly when delimited by `$$` or `\[` |
| MathText.FindNextNone | src/components/ui/MathText.tsx:124-156 | nothing is found exactly when no pattern matches anywhere |
| MathText.FindNextLeftmost | src/components/ui/MathText.tsx:142-153 | the match found starts no later than any pattern's match |
| MathText.FindNextTieBreak | src/components/ui/MathText.tsx:145 | the match is one pattern's, and every pattern listed before it matches later or not at all |
| MathText.FindNextMath | src/components/ui/MathText.tsx:124-156 | the loop over the pattern table computes the reference search |
| MathText.FindNextFinds | src/components/ui/MathText.tsx:124-156 | the search returns spans of its input with the right display flags |
| MathText.SpansAppend | src/components/ui/MathText.tsx:78-111 | the text of concatenated pieces is the concatenated text |
| MathText.SpansSingle | src/components/ui/MathText.tsx:78-111 | one piece's text is its span |
| MathText.SpansOfMatch | src/components/ui/MathText.tsx:95-104 | the text before a match and the match give back the input up to the match's end |
| MathText.ScanWithPlain | src/components/ui/MathText.tsx:86-97 | no plain piece is empty, and a last plain piece holds no match |
| MathText.ScanWithPartitions | src/components/ui/MathText.tsx:78-111 | the pieces concatenate back to the input |
| MathText.PartitionStep | src/components/ui/MathText.tsx:95-107 | one match plus a partitioned rest partitions the input |
| MathText.ScanWithFormulas | src/components/ui/MathText.tsx:100-104 | every formula piece is non-empty with the right display flag |
| MathText.ScanFormulas | src/components/ui/MathText.tsx:100-104 | every formula piece is non-empty, display math exactly when delimited by `$$` or `\[` |
| MathText.Segments | src/components/ui/MathText.tsx:39-50 | one segment per piece |
| MathText.SegmentsAppend | src/components/ui/MathText.tsx:78-111 | segments of concatenated pieces concatenate |
| MathText.TokensTextNonEmpty | src/components/ui/MathText.tsx:95-97 | no text segment is empty |
| MathText.SegmentsLastText | src/components/ui/MathText.tsx:86-91 | a last text segment holds no match |
| MathText.TokensTextLast | src/components/ui/MathText.tsx:86-91 | the last text segment holds no formula |
| MathText.TokensPartition | src/components/ui/MathText.tsx:78-111 | the pieces partition the input, text segments carrying exactly the text between formulas |
| MathText.ScanWithLast | src/components/ui/MathText.tsx:86-91 | with no match left, the rest is one plain piece |
| MathText.ScanWithNext | src/components/ui/MathText.tsx:95-107 | a match yields the text before it, the formula, then the scan of the rest |
| MathText.ScanLast | src/components/ui/MathText.tsx:86-91 | with no match left, the rest is one plain piece |
| MathText.ScanNext | src/components/ui/MathText.tsx:95-107 | a match yields the text before it, the formula, then the scan of the rest |
| MathText.TokensLast | src/components/ui/MathText.tsx:86-91 | with no match left, the rest is one text segment |
| MathText.TokensNext | src/components/ui/MathText.tsx:95-107 | a match emits the text before it, then the math segment, then the rest |
| MathText.TokenizeStep | src/components/ui/MathText.tsx:82-108 | one round of the loop keeps the segments so far plus the tokens of the rest equal to the tokens of the input |
| MathText.Scan | src/components/ui/MathText.tsx:78-111 | definition with no ensures: the cut of a text into plain and formula pieces with the four-pattern search; ScanFormulas, ScanLast and ScanNext state it |
| MathText.Tokens | src/components/ui/MathText.tsx:78-111 | definition with no ensures: the segments of the cut; TokensPartition, TokensTextNonEmpty, TokensTextLast, TokensLast and TokensNext state it |
| MathText.Tokenize | src/components/ui/MathText.tsx:78-111 | the imperative tokenizer computes the reference segments |
| MathRender.ReplaceCharAppend | src/components/ui/MathText.tsx:183-190 | a global replace distributes over concatenation |
| MathRender.ReplaceCharAbsent | src/components/ui/MathText.tsx:183-190 | a replace leaves text without that character unchanged |
| MathRender.ReplaceCharRemoves | src/components/ui/MathText.tsx:183-190 | after the replace, the character is gone unless its replacement contains it |
| MathRender.ReplaceCharKeepsOut | src/components/ui/MathText.tsx:183-190 | a replace introduces no character that the text and the replacement lack |
| MathRender.ReplaceOne | src/components/ui/MathText.tsx:183-190 | a replace on one character |
| MathRender.AfterAmp | src/components/ui/MathText.tsx:185-189 | the passes after `&` leave text without their characters unchanged |
| MathRender.AfterLt | src/components/ui/MathText.tsx:186-189 | the passes after `<` leave text without their characters unchanged |
| MathRender.AfterGt | src/components/ui/MathText.tsx:187-189 | the passes after `>` leave text without their characters unchanged |
| MathRender.EscapeAmp | src/components/ui/MathText.tsx:185 | `&` becomes `&amp;`, not escaped again by the later passes |
| MathRender.EscapeLt | src/components/ui/MathText.tsx:186 | `<` becomes `&lt;` |
| MathRender.EscapeGt | src/components/ui/MathText.tsx:187 | `>` becomes `&gt;` |
| MathRender.EscapeQuot | src/components/ui/MathText.tsx:188 | `"` becomes `&quot;` |
| MathRender.EscapeApos | src/components/ui/MathText.tsx:189 | `'` becomes `&#039;` |
| MathRender.EscapeOther | src/components/ui/MathText.tsx:183-190 | any other character is kept |
| MathRender.EscapeOneChar | src/components/ui/MathText.tsx:183-190 | escaping one character gives its entity |
| MathRender.EscapeHtml | src/components/ui/MathText.tsx:183-190 | definition with no ensures: the five global replaces in source order; EscapeHtmlPerChar, EscapeHtmlSafe and UnescapeEscape state it |
| MathRender.EscapeHtmlAppend | src/components/ui/MathText.tsx:183-190 | escaping distributes over concatenation |
| MathRender.EscapeHtmlPerChar | src/components/ui/MathText.tsx:183-190 | the five sequential passes equal replacing each character independently by its entity |
| MathRender.EscapeHtmlSafe | src/components/ui/MathText.tsx:183-190 | escaped text has no `<`, `>`, `"` or `'` |
| MathRender.LiteralHere | src/components/ui/MathText.tsx:183-190 | a string starts with its own prefix |
| MathRender.NotLiteralAt | src/components/ui/MathText.tsx:183-190 | a differing character rules out a literal |
| MathRender.UnescapeEntity | src/components/ui/MathText.tsx:183-190 | decoding an entity gives back its character |
| MathRender.UnescapeEscape | src/components/ui/MathText.tsx:183-190 | decoding the escaped text gives back the text, so no information is lost |
| MathRender.RenderMathText | src/components/ui/MathText.tsx:54-68 | definition with no ensures: "" for an empty text, otherwise the segments rendered and joined; RenderPlainText and RenderStep state it |
| MathRender.RenderSegmentsAppend | src/components/ui/MathText.tsx:62-67 | rendering distributes over concatenated segments |
| MathRender.RenderPlainText | src/components/ui/MathText.tsx:54-68 | a text with no formula renders as its escaped text |
| MathRender.RenderStep | src/components/ui/MathText.tsx:54-68 | the output is the escaped text before the first formula, the rendered formula, then the rendering of the rest |
| Progress.InitialProgress | src/hooks/useQuizProgress.ts:5-11 | no attempts, no best scores, zero counters, no last date |
| Progress.ScorePercent | src/hooks/useQuizProgress.ts:22-24 | the percentage is the score's share of 100 rounded to the nearest integer |
| Progress.ScorePercentBounds | src/hooks/useQuizProgress.ts:22-24 | between 0 and 100; all right gives 100, none right gives 0 |
| Progress.ScorePercentMonotone | src/hooks/useQuizProgress.ts:22-24 | a higher score never gives a lower percentage |
| Progress.BestOf | src/hooks/useQuizProgress.ts:27-28 | the stored best, or 0 for a category never played |
| Progress.NextStreak | src/hooks/useQuizProgress.ts:34-54 | first quiz gives 1, same day keeps, the day after adds 1, otherwise 1 |
| Progress.Prepend | src/hooks/useQuizProgress.ts:56-57 | the new attempt first, then the old ones in order, at most 50 |
| Progress.AttemptsOf | src/hooks/useQuizProgress.ts:75-80 | exactly the attempts of that category |
| Progress.AttemptsOfAppend | src/hooks/useQuizProgress.ts:75-80 | the filter keeps the stored order |
| Progress.ResetProgress | src/hooks/useQuizProgress.ts:82-84 | back to the initial progress |
| Progress.ResetForgets | src/hooks/useQuizProgress.ts:68-84 | after a reset, every best score is 0 and no category has attempts |
| Progress.SaveAttempt | src/hooks/useQuizProgress.ts:19-66 | definition with no ensures: the `saveAttempt` updater; SaveBestScore, SaveKeepsOtherScores, SaveAttemptList, SaveAttemptsForCategoryCapped, SaveCounters and SavePreservesWellformed state it |
| Progress.GetBestScore | src/hooks/useQuizProgress.ts:68-73 | definition with no ensures: BestOf of the stored scores, whose ensures give the stored best or 0 |
| Progress.GetAttemptsForCategory | src/hooks/useQuizProgress.ts:75-80 | definition with no ensures: AttemptsOf of the stored attempts, whose ensures give exactly that category's attempts |
| Progress.Survivors | src/hooks/useQuizProgress.ts:56-57 | the stored attempts kept by the cap are a prefix: all below 50, the newest 49 at it |
| Progress.PrependSurvivors | src/hooks/useQuizProgress.ts:56-57 | the capped list is the new attempt followed by the survivors |
| Progress.SaveBestScore | src/hooks/useQuizProgress.ts:27-31 | the new best is the larger of the old best and the percentage |
| Progress.SaveKeepsOtherScores | src/hooks/useQuizProgress.ts:27-31 | best scores never fall, other categories are unchanged, and only this category gains an entry |
| Progress.SaveAttemptList | src/hooks/useQuizProgress.ts:56-62 | the attempt list is the new attempt before the old ones, capped at 50 |
| Progress.SaveAttemptsForCategoryCapped | src/hooks/useQuizProgress.ts:56-80 | at any length, a category's attempts after a save are the new one in front exactly when it is that category's, then that category's survivors |
| Progress.SaveAttemptsForCategory | src/hooks/useQuizProgress.ts:56-80 | below the cap, a category's attempts gain the new one in front exactly when it is that category's |
| Progress.SaveCounters | src/hooks/useQuizProgress.ts:34-62 | one more quiz completed, the last date is today, and the streak follows the streak rule |
| Progress.SavePreservesWellformed | src/hooks/useQuizProgress.ts:19-66 | saving keeps the cap and non-negative counters, and leaves a streak of at least 1 |
| Progress.ConsecutiveDaysStreak | src/hooks/useQuizProgress.ts:34-54 | n quizzes on n consecutive days from the start give a streak of n |
| Progress.SameDayKeepsStreak | src/hooks/useQuizProgress.ts:43-44 | a second quiz the same day keeps the streak |
| Progress.GapResetsStreak | src/hooks/useQuizProgress.ts:48-50 | a gap of more than a day resets the streak to 1 |
| Timer.TickValue | src/hooks/useTimer.ts:22-29 | the time goes down by one, or to zero with time-up reported exactly then |
| Timer.RunBefore | src/hooks/useTimer.ts:18-33 | before the time is used up it has gone down by one per second with no time-up |
| Timer.RunOut | src/hooks/useTimer.ts:18-33 | once the time is used up it is 0 and time-up fired exactly once |
| Timer.RunNonNegative | src/hooks/useTimer.ts:18-33 | the time never goes below zero |
| Timer.CountdownTimer.constructor | src/hooks/useTimer.ts:9-10 | starts at the initial time |
| Timer.CountdownTimer.Tick | src/hooks/useTimer.ts:18-33 | inactive or out of time changes nothing, otherwise applies the updater, never goes below zero |
| Timer.CountdownTimer.ResetTimer | src/hooks/useTimer.ts:35-37 | the given time, or the initial time when none is given |
| Timer.CountdownTimer.SetInitialTime | src/hooks/useTimer.ts:13-15 | a new initial time also becomes the time left |
| Timer.Ticking | src/hooks/useTimer.ts:19 | definition with no ensures: the effect's guard, active with time left; Tick and TickSecond are stated with it |
| Timer.CountdownTimer.IsWarning | src/hooks/useTimer.ts:44 | definition with no ensures: five seconds or less; IsCritical implies it |
| Timer.CountdownTimer.IsCritical | src/hooks/useTimer.ts:44-45 | critical time is always also warning time |
| Player.SumTime | src/pages/QuizPlayer.tsx:44-46 | definition with no ensures: the recorded times added up; the player's invariant keeps the total time equal to it |
| Player.SumTimeSnoc | src/pages/QuizPlayer.tsx:45-47 | recording an answer adds its time to the total |
| Player.ElapsedSeconds | src/pages/QuizPlayer.tsx:70 | the elapsed milliseconds rounded to the nearest second |
| Player.QuizPlayer.constructor | src/pages/QuizPlayer.tsx:20-27 | first question open, nothing recorded, timer at the time per question |
| Player.QuizPlayer.HandleTimeUp | src/pages/QuizPlayer.tsx:34-49 | an open question is recorded as unanswered and wrong, and charged the full time |
| Player.QuizPlayer.HandlePause | src/pages/QuizPlayer.tsx:57-61 | pauses only an open question |
| Player.QuizPlayer.HandleResume | src/pages/QuizPlayer.tsx:63-65 | unpauses |
| Player.QuizPlayer.HandleSelectAnswer | src/pages/QuizPlayer.tsx:67-87 | once per question: records the choice, its correctness and the rounded seconds, and keeps the total the sum of the times |
| Player.QuizPlayer.HandleNext | src/pages/QuizPlayer.tsx:89-101 | on the last question hands over the answers with their total time, otherwise opens the next question with the timer reset |
| Player.QuizPlayer.TimerActive | src/pages/QuizPlayer.tsx:54 | definition with no ensures: the timer's `isActive`, question open and not paused |
| Player.QuizPlayer.TickSecond | src/pages/QuizPlayer.tsx:34-54 | the timer ticks only while the question is open, not paused and with time left; reaching zero records a time-out, and otherwise the answers, the total and the open state stay; pause, choice and start time never change |
| Results.IncorrectAnswers | src/pages/QuizResults.tsx:27-28 | correct and incorrect add up to the question count |
| Results.GradeOf | src/pages/QuizResults.tsx:30-37 | definition with no ensures: `getGrade`'s chain of thresholds; GradeBands and GradeMonotone state it |
| Results.GradeBands | src/pages/QuizResults.tsx:30-37 | both directions: a grade is given exactly from its threshold up to the next better grade's |
| Results.GradeMonotone | src/pages/QuizResults.tsx:30-37 | a higher percentage never gives a lower grade |
| Results.ShowConfetti | src/pages/QuizResults.tsx:42 | definition with no ensures: from 80 to below 90; OneCelebration and ConfettiNeverHigh state it |
| Results.ShowStarConfetti | src/pages/QuizResults.tsx:43 | definition with no ensures: 90 and up; OneCelebration states it |
| Results.ConfettiIntensity | src/pages/QuizResults.tsx:44 | definition with no ensures: high from 95, medium from 85, low below; ConfettiNeverHigh states it |
| Results.OneCelebration | src/pages/QuizResults.tsx:42-44 | at most one confetti kind, shown exactly for grades A and A+ |
| Results.ConfettiNeverHigh | src/pages/QuizResults.tsx:42-44 | the plain confetti is never at high intensity, medium exactly from 85 |
| Results.AttemptGrade | src/pages/QuizResults.tsx:25-37 | definition with no ensures: the grade of the rounded percentage; AttemptGradeExtremes states it |
| Results.AttemptGradeExtremes | src/pages/QuizResults.tsx:25-37 | all right gives A+, none right gives F |
| Results.Toggle | src/pages/QuizResults.tsx:57-67 | flips the one question, leaves the others |
| Results.ToggleTwice | src/pages/QuizResults.tsx:57-67 | toggling twice restores the set |
| Results.ToggleCommutes | src/pages/QuizResults.tsx:57-67 | toggles of two questions commute |
| Results.ResultsPage.constructor | src/pages/QuizResults.tsx:21 | nothing expanded |
| Results.ResultsPage.ToggleQuestion | src/pages/QuizResults.tsx:57-67 | the expanded set is toggled at the question |
| Home.AllCategories | src/pages/QuizHome.tsx:49 | the built-in categories, then the custom ones, in order |
| Home.MatchesSearch | src/pages/QuizHome.tsx:53-54 | definition with no ensures: the lower-cased query inside the lower-cased name or description; EmptyQueryMatches states it |
| Home.EmptyQueryMatches | src/pages/QuizHome.tsx:53-56 | an empty search matches every category |
| Home.ShownFlags | src/pages/QuizHome.tsx:52-72 | each category's flag is its own search and filter test |
| Home.Select | src/pages/QuizHome.tsx:52 | the kept entries, no more than the input |
| Home.SelectMembers | src/pages/QuizHome.tsx:52 | exactly the entries whose flag is set |
| Home.SelectAppend | src/pages/QuizHome.tsx:52 | selection keeps order across concatenation |
| Home.SelectAll | src/pages/QuizHome.tsx:52 | with every flag set, everything is kept |
| Home.FilterCategories | src/pages/QuizHome.tsx:52-72 | never more categories than given |
| Home.FilterCategoriesMembers | src/pages/QuizHome.tsx:52-72 | both directions: a category is listed exactly when it is given and passes search and filter |
| Home.FilterCategoriesAppend | src/pages/QuizHome.tsx:52-72 | filtering keeps the order of the categories |
| Home.FilterShowsAll | src/pages/QuizHome.tsx:52-72 | empty search with filter "all" lists everything |
| Home.PassesFilter | src/pages/QuizHome.tsx:58-71 | definition with no ensures: the four filter cases on attempts and best score; NewNotInProgress and FilterShowsAll state it |
| Home.NewNotInProgress | src/pages/QuizHome.tsx:62-68 | no category is both new and in progress |
| Home.TotalQuestions | src/pages/QuizHome.tsx:75 | definition with no ensures: question counts added up; TotalQuestionsSnoc and HandleSaveQuiz state it |
| Home.TotalQuestionsSnoc | src/pages/QuizHome.tsx:75 | one more category adds its question count |
| Home.TotalAnswered | src/pages/QuizHome.tsx:76 | definition with no ensures: answer counts of the stored attempts added up; TotalAnsweredPrepend and SaveCountsAnswers state it |
| Home.TotalAnsweredPrepend | src/pages/QuizHome.tsx:76 | an attempt put in front adds its answer count |
| Home.SaveCountsAnswers | src/pages/QuizHome.tsx:76-96 | saving an attempt adds its answers to the total; below the cap nothing else changes, at the cap the oldest attempt's answers drop out |
| Home.CorrectCount | src/pages/QuizHome.tsx:86 | not more than the answers, all of them exactly when every answer is right |
| Home.WithoutQuiz | src/pages/QuizHome.tsx:126-128 | exactly the quizzes with another id |
| Home.WithoutAbsentQuiz | src/pages/QuizHome.tsx:126-128 | deleting an absent id changes nothing |
| Home.WithoutQuizAppend | src/pages/QuizHome.tsx:126-128 | deleting keeps the order |
| Home.DeleteUndoesSave | src/pages/QuizHome.tsx:121-128 | deleting a newly saved quiz with a fresh id restores the list |
| Home.QuizHomePage.constructor | src/pages/QuizHome.tsx:38-46 | landing view, nothing selected, empty search, filter "all" |
| Home.QuizHomePage.FilteredInOrder | src/pages/QuizHome.tsx:49-72 | the listing is the built-in matches, then the custom matches |
| Home.QuizHomePage.HandleSelectCategory | src/pages/QuizHome.tsx:78-81 | the category is selected and the player shown |
| Home.QuizHomePage.HandleQuizComplete | src/pages/QuizHome.tsx:83-99 | with a category selected: the attempt with its correct count is saved and shown; without one nothing changes |
| Home.QuizHomePage.HandleRetry | src/pages/QuizHome.tsx:101-104 | the same category is played again, the last attempt cleared |
| Home.QuizHomePage.HandleGoHome | src/pages/QuizHome.tsx:106-110 | home view, nothing selected, no last attempt |
| Home.QuizHomePage.HandleQuit | src/pages/QuizHome.tsx:112-115 | home view, nothing selected, last attempt kept |
| Home.QuizHomePage.HandleOpenCreator | src/pages/QuizHome.tsx:117-119 | creator view |
| Home.QuizHomePage.ShowHome | src/pages/QuizHome.tsx:130-136 | home view, when the creator closes or the user starts from the landing page |
| Home.QuizHomePage.HandleSaveQuiz | src/pages/QuizHome.tsx:121-124 | the quiz is appended to the custom quizzes and the question total grows by its count |
| Home.QuizHomePage.HandleDeleteQuiz | src/pages/QuizHome.tsx:126-128 | custom quizzes with that id are removed, the rest kept in order |

## Left out

- Rendering: JSX, styling, animations and KaTeX. `renderKatexSafe` is the parameter `render` of
  `RenderMathText`, so its output and its error fallback are not modelled.
- Sound effects and the celebration sound of the results page: they are audio output only.
- `localStorage`: the saved progress, custom quizzes and their JSON round trip are plain fields and
  values.
- `setInterval` and React effect scheduling: the caller calls `CountdownTimer.Tick` (or
  `QuizPlayer.TickSecond`) once per elapsed second.
- `Date.now()`, `toISOString()` and `toDateString()`: clock readings are parameters. Days are integer day
  numbers, so the last quiz date is an optional day number rather than a date string, and "yesterday" is
  the day before.
- Progress.ScorePercent: floating-point `Math.round` is modelled as exact rounding half up, and it requires
  a positive question count. The source divides by zero there and would store NaN.
- Player.QuizPlayer.constructor: requires a category with at least one question. The source would read
  an undefined current question otherwise.
- Case folding is ASCII only. The Devanagari keywords and the check marks are matched as literal
  characters.
- Strings are sequences of characters. UTF-16 code units appear only in the length gate.
- `try`/`catch` around each block and `console.error` (src/pages/QuizCreator.tsx:144-145): the model's
  block parser cannot fail, so the catch branch is not modelled.
- The other fields of the quiz creator (name, description, time per question, the manual question
  editor) and `handleSave`: they are form plumbing outside the parser.
- The average time per answer on the results page, and the timer's percentage: both are floating-point
  display values.
- `pauseTimer` of the timer hook: it does nothing, and pausing is modelled through the player's
  `isPaused` flag.
- The setters of the search text and the filter type on the home page: the fields exist and
  `FilterCategories` is stated for any value of them.
- The built-in question bank (`quizCategories`): the built-in categories are a constructor parameter of
  `QuizHomePage`.
