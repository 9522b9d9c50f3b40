/**
 * The bulk question parser of the quiz creator: pasted free text in, question
 * records out. The functions below are the specification; the methods at the
 * end follow the loops of the source and are proved to compute it.
 */
module QuizCreator {
  import opened Wrappers
  import opened JsText
  import opened ParserPatterns
  import opened QuizTypes

  const NoExplanation: string := "No explanation provided."
  const ParseErrorMessage: string := "Could not parse any questions. Please check the format."

  // ----- block splitting -----

  /** The split points of a text, position by position: `starts[k]` when a block begins at `k`. */
  function Starts(text: string): (r: seq<bool>)
    ensures |r| == |text|
    ensures forall k :: 0 <= k < |text| ==> r[k] == BlockStartsAt(text, k)
  {
    seq(|text|, k requires 0 <= k < |text| => BlockStartsAt(text, k))
  }

  /**
   * `text.split(lookahead)` scanning from `q`, the current block having
   * started at `p`: a block is cut before every split point after its start
   * (`starts` standing for the split points of `text`).
   */
  function SplitFrom(text: string, starts: seq<bool>, p: nat, q: nat): (r: seq<string>)
    requires |starts| == |text| && p <= q <= |text|
    ensures |r| >= 1
    ensures Concat(r) == text[p..]
    decreases |text| - q
  {
    if q == |text| then [text[p..]]
    else if q > p && starts[q] then
      var rest := SplitFrom(text, starts, q, q + 1);
      assert text[p..] == text[p..q] + text[q..];
      [text[p..q]] + rest
    else SplitFrom(text, starts, p, q + 1)
  }

  /** Where piece `i` of a split that started at `p` begins in the text. */
  function PieceStart(p: nat, pieces: seq<string>, i: nat): nat
    requires i <= |pieces|
  {
    p + |Concat(pieces[..i])|
  }

  /** Piece `i` lies in the text, begins at a split point unless it is the first, and contains none. */
  predicate PieceCut(text: string, starts: seq<bool>, p: nat, pieces: seq<string>, i: nat)
    requires |starts| == |text| && i < |pieces|
  {
    var s := PieceStart(p, pieces, i);
    s + |pieces[i]| <= |text| &&
    (i > 0 ==> s < |text| && starts[s]) &&
    (forall k :: s < k < s + |pieces[i]| ==> !starts[k])
  }

  /** A piece after the first block keeps its cut when the first block is put in front. */
  lemma PieceCutShift(text: string, starts: seq<bool>, p: nat, q: nat, r: seq<string>, rest: seq<string>, i: nat)
    requires |starts| == |text| && p <= q < |text| && r == [text[p..q]] + rest && 0 < i < |r|
    requires PieceCut(text, starts, q, rest, i - 1) && starts[q]
    ensures PieceCut(text, starts, p, r, i)
  {
    if i == 1 {
      assert PieceStart(q, rest, 0) == q;
    }
    assert r[..i] == [text[p..q]] + rest[..i - 1];
    ConcatAppend([text[p..q]], rest[..i - 1]);
    assert PieceStart(p, r, i) == PieceStart(q, rest, i - 1);
    assert r[i] == rest[i - 1];
  }

  /** Every block after the first begins at a split point, and no split point lies inside a block. */
  lemma {:induction false} SplitFromCuts(text: string, starts: seq<bool>, p: nat, q: nat)
    requires |starts| == |text| && p <= q <= |text|
    requires forall k :: p < k < q ==> !starts[k]
    ensures forall i :: 0 <= i < |SplitFrom(text, starts, p, q)| ==>
      PieceCut(text, starts, p, SplitFrom(text, starts, p, q), i)
    decreases |text| - q
  {
    var r := SplitFrom(text, starts, p, q);
    if q == |text| {
      assert r == [text[p..]];
      assert PieceStart(p, r, 0) == p;
      assert PieceCut(text, starts, p, r, 0);
    } else if q > p && starts[q] {
      var rest := SplitFrom(text, starts, q, q + 1);
      SplitFromCuts(text, starts, q, q + 1);
      assert r == [text[p..q]] + rest;
      forall i | 0 <= i < |r| ensures PieceCut(text, starts, p, r, i) {
        if i == 0 {
          assert PieceStart(p, r, 0) == p;
          assert r[0] == text[p..q];
        } else {
          PieceCutShift(text, starts, p, q, r, rest, i);
        }
      }
    } else {
      SplitFromCuts(text, starts, p, q + 1);
    }
  }

  /** The blocks of the input: `text.split(/(?=^[ \t]*(?:...))/gim)`. */
  function SplitBlocks(text: string): (r: seq<string>)
    ensures Concat(r) == text
  {
    SplitFrom(text, Starts(text), 0, 0)
  }

  /** `.filter((block) => block.trim())`. */
  function NonBlank(blocks: seq<string>): (r: seq<string>)
    ensures |r| <= |blocks|
    ensures forall i :: 0 <= i < |r| ==> Trim(r[i]) != ""
  {
    if |blocks| == 0 then []
    else (if Trim(blocks[0]) != "" then [blocks[0]] else []) + NonBlank(blocks[1..])
  }

  /** `.map((l) => l.trim()).filter((l) => l)`. */
  function NonBlankLines(pieces: seq<string>): (r: seq<string>)
    ensures |r| <= |pieces|
    ensures forall i :: 0 <= i < |r| ==> r[i] != [] && !IsSpace(r[i][0]) && !IsSpace(r[i][|r[i]| - 1])
  {
    if |pieces| == 0 then []
    else
      var t := Trim(pieces[0]);
      (if t != "" then [t] else []) + NonBlankLines(pieces[1..])
  }

  /** The lines of a block: split at "\n", each trimmed, blank ones dropped. */
  function BlockLines(block: string): (r: seq<string>)
    ensures forall i :: 0 <= i < |r| ==> r[i] != [] && !IsSpace(r[i][0]) && !IsSpace(r[i][|r[i]| - 1])
  {
    NonBlankLines(Split(block, '\n'))
  }

  // ----- line classification -----

  /** What a later line of a block is, in the priority order option, answer, explanation. */
  datatype LineKind =
    | OptionLine(option: QuizOption, marked: bool)
    | AnswerLine(letter: char)
    | ExplanationLine(body: string)
    | OtherLine

  function Classify(line: string): (k: LineKind)
    ensures k.OptionLine? <==> OptionMatch(line).Some?
    ensures k.OptionLine? ==>
      k.option == MakeOption(OptionMatch(line).value) && k.marked == IsMarked(OptionMatch(line).value)
    ensures k.AnswerLine? <==> OptionMatch(line).None? && AnswerLetter(line).Some?
    ensures k.AnswerLine? ==> k.letter == AnswerLetter(line).value
    ensures k.ExplanationLine? <==>
      OptionMatch(line).None? && AnswerLetter(line).None? && ExplanationBody(line).Some?
    ensures k.ExplanationLine? ==> k.body == Trim(ExplanationBody(line).value)
  {
    match OptionMatch(line)
    case Some(h) => OptionLine(MakeOption(h), IsMarked(h))
    case None =>
      match AnswerLetter(line)
      case Some(c) => AnswerLine(c)
      case None =>
        match ExplanationBody(line)
        case Some(b) => ExplanationLine(Trim(b))
        case None => OtherLine
  }

  /** An option body carries a correctness marker. */
  predicate IsMarked(h: OptionHead) {
    HasCorrectMarker(Trim(h.body))
  }

  /** The stored text of an option: trimmed, marker removed when marked, wrapping stars removed. */
  function OptionText(h: OptionHead): (r: string)
    ensures IsMarked(h) ==> NoCheckMarks(r)
    ensures CharsOf(r, h.body)
  {
    var t := Trim(h.body);
    var c := if IsMarked(h) then CleanMarkers(t) else t;
    var s := StripWrapStars(c);
    var r := Trim(s);
    OptionTextChars(h.body, t, c, s, r);
    r
  }

  /** The characters left after each clean-up stage come from the one before. */
  lemma OptionTextChars(body: string, t: string, c: string, s: string, r: string)
    requires t == Trim(body) && CharsOf(c, t) && CharsOf(s, c) && r == Trim(s)
    ensures CharsOf(r, body)
    ensures NoCheckMarks(c) ==> NoCheckMarks(r)
  {
    TrimKeepsChars(body);
    TrimKeepsChars(s);
    CharsOfTrans(c, t, body);
    CharsOfTrans(s, c, body);
    CharsOfTrans(r, s, body);
    if NoCheckMarks(c) {
      CharsOfTrans(r, s, c);
      forall k | 0 <= k < |r| ensures !IsCheckMark(r[k]) {
        var j :| 0 <= j < |c| && c[j] == r[k];
      }
    }
  }

  /** The option record appended for an option line: the letter upper-cased, the cleaned text. */
  function MakeOption(h: OptionHead): (o: QuizOption)
    requires IsOptionLetter(h.letter)
    ensures o.id in ["A", "B", "C", "D"]
    ensures IsMarked(h) ==> NoCheckMarks(o.text)
  {
    var c := ToUpper(h.letter);
    assert c == 'A' || c == 'B' || c == 'C' || c == 'D';
    QuizOption([c], OptionText(h))
  }

  /** The classification of every line of a block, each line on its own. */
  function Kinds(lines: seq<string>): (r: seq<LineKind>)
    ensures |r| == |lines|
    ensures forall k :: 0 <= k < |lines| ==> r[k] == Classify(lines[k])
  {
    seq(|lines|, k requires 0 <= k < |lines| => Classify(lines[k]))
  }

  /** What the block has collected so far. */
  datatype Draft = Draft(options: seq<QuizOption>, correctAnswer: string, explanation: string)

  /** A line that ends an explanation: one that looks like an option line or gives an answer. */
  predicate EndsExplanation(line: string) {
    LooksLikeOption(line) || AnswerLetter(line).Some?
  }

  /** Which lines of a block end an explanation, each line on its own. */
  function Stops(lines: seq<string>): (r: seq<bool>)
    ensures |r| == |lines|
    ensures forall k :: 0 <= k < |lines| ==> r[k] == EndsExplanation(lines[k])
  {
    seq(|lines|, k requires 0 <= k < |lines| => EndsExplanation(lines[k]))
  }

  /**
   * The lines after an explanation line that join it: each is added, after a
   * space, until one ends the explanation (`stops[k]` standing for line `k`).
   */
  function ExplanationTail(lines: seq<string>, stops: seq<bool>, k: nat): (r: string)
    requires |stops| == |lines| && k <= |lines|
    decreases |lines| - k
  {
    if k == |lines| || stops[k] then ""
    else " " + lines[k] + ExplanationTail(lines, stops, k + 1)
  }

  /** The explanation that starts at line `e` with trimmed capture `b`: the capture, then the lines that join it. */
  function ExplanationText(lines: seq<string>, stops: seq<bool>, e: nat, b: string): string
    requires |stops| == |lines| && e < |lines|
  {
    b + ExplanationTail(lines, stops, e + 1)
  }

  /** The draft after a line of kind `kind` other than an explanation line. */
  function Step(kind: LineKind, d: Draft): (r: Draft)
    ensures r.explanation == d.explanation
  {
    match kind
    case OptionLine(o, marked) =>
      d.(options := d.options + [o], correctAnswer := if marked then o.id else d.correctAnswer)
    case AnswerLine(c) => d.(correctAnswer := [ToUpper(c)])
    case _ => d
  }

  /**
   * The classification loop over the lines of a block from index `j`, line
   * `k` being of kind `kinds[k]`; it stops at the first explanation line.
   */
  function ScanLines(lines: seq<string>, kinds: seq<LineKind>, stops: seq<bool>, j: nat, d: Draft): (r: Draft)
    requires |kinds| == |lines| && |stops| == |lines| && j <= |lines|
    decreases |lines| - j
  {
    if j == |lines| then d
    else
      match kinds[j]
      case ExplanationLine(b) => d.(explanation := ExplanationText(lines, stops, j, b))
      case _ => ScanLines(lines, kinds, stops, j + 1, Step(kinds[j], d))
  }

  // ----- what the line scan computes, stated independently -----

  /** The first explanation line at or after `j`, or `|kinds|` when there is none. */
  function ExplanationStart(kinds: seq<LineKind>, j: nat): (e: nat)
    requires j <= |kinds|
    ensures j <= e <= |kinds|
    ensures e < |kinds| ==> kinds[e].ExplanationLine?
    decreases |kinds| - j
  {
    if j == |kinds| || kinds[j].ExplanationLine? then j else ExplanationStart(kinds, j + 1)
  }

  /** No line before the one `ExplanationStart` finds is an explanation line. */
  lemma {:induction false} ExplanationStartFirst(kinds: seq<LineKind>, j: nat, k: nat)
    requires j <= |kinds| && j <= k < ExplanationStart(kinds, j)
    ensures !kinds[k].ExplanationLine?
    decreases |kinds| - j
  {
    if k > j {
      ExplanationStartFirst(kinds, j + 1, k);
    }
  }

  /** The options the lines of kinds `ks` contribute: one per option line, in line order, duplicates kept. */
  function OptionsOf(ks: seq<LineKind>): (r: seq<QuizOption>)
    ensures |r| <= |ks|
  {
    if ks == [] then []
    else
      OptionsOf(ks[..|ks| - 1]) + match ks[|ks| - 1] case OptionLine(o, _) => [o] case _ => []
  }

  /** The answer a line sets, if any: the letter of a marked option, or the letter of an answer line. */
  function Signal(kind: LineKind): Option<string>
  {
    match kind
    case OptionLine(o, marked) => if marked then Some(o.id) else None
    case AnswerLine(c) => Some([ToUpper(c)])
    case _ => None
  }

  /** The answer in force after lines of kinds `ks`, `initial` before them: the last line that sets one wins. */
  function LastSignal(ks: seq<LineKind>, initial: string): string
  {
    if ks == [] then initial
    else
      match Signal(ks[|ks| - 1])
      case Some(a) => a
      case None => LastSignal(ks[..|ks| - 1], initial)
  }

  lemma {:induction false} OptionsOfAppend(a: seq<LineKind>, b: seq<LineKind>)
    ensures OptionsOf(a + b) == OptionsOf(a) + OptionsOf(b)
    decreases |b|
  {
    if b == [] {
      assert a + b == a;
    } else {
      var b' := b[..|b| - 1];
      assert (a + b)[..|a + b| - 1] == a + b';
      assert (a + b)[|a + b| - 1] == b[|b| - 1];
      OptionsOfAppend(a, b');
    }
  }

  lemma {:induction false} LastSignalAppend(a: seq<LineKind>, b: seq<LineKind>, initial: string)
    ensures LastSignal(a + b, initial) == LastSignal(b, LastSignal(a, initial))
    decreases |b|
  {
    if b == [] {
      assert a + b == a;
    } else {
      var b' := b[..|b| - 1];
      assert (a + b)[..|a + b| - 1] == a + b';
      assert (a + b)[|a + b| - 1] == b[|b| - 1];
      LastSignalAppend(a, b', initial);
    }
  }

  /** One line's contribution, in terms of the reference definitions. */
  lemma StepSpec(kind: LineKind, d: Draft)
    ensures Step(kind, d).options == d.options + OptionsOf([kind])
    ensures Step(kind, d).correctAnswer == LastSignal([kind], d.correctAnswer)
    ensures Step(kind, d).explanation == d.explanation
  {
    assert [kind][..0] == [];
  }

  /**
   * The line scan from `j`, options: those of the lines before the first
   * explanation line, in line order; the lines after it are not classified.
   */
  lemma {:induction false} ScanLinesOptions(lines: seq<string>, kinds: seq<LineKind>, stops: seq<bool>, j: nat, d: Draft)
    requires |kinds| == |lines| && |stops| == |lines| && j <= |lines|
    ensures ScanLines(lines, kinds, stops, j, d).options == d.options + OptionsOf(kinds[j..ExplanationStart(kinds, j)])
    decreases |lines| - j
  {
    if j == |lines| || kinds[j].ExplanationLine? {
      assert kinds[j..j] == [];
    } else {
      var e := ExplanationStart(kinds, j);
      var tail := kinds[j + 1..e];
      ScanLinesOptions(lines, kinds, stops, j + 1, Step(kinds[j], d));
      StepSpec(kinds[j], d);
      assert kinds[j..e] == [kinds[j]] + tail;
      var a, b := OptionsOf([kinds[j]]), OptionsOf(tail);
      OptionsOfAppend([kinds[j]], tail);
      assert (d.options + a) + b == d.options + (a + b);
    }
  }

  /** The line scan from `j`, answer: the last answer-setting line before the first explanation line wins. */
  lemma {:induction false} ScanLinesAnswer(lines: seq<string>, kinds: seq<LineKind>, stops: seq<bool>, j: nat, d: Draft)
    requires |kinds| == |lines| && |stops| == |lines| && j <= |lines|
    ensures ScanLines(lines, kinds, stops, j, d).correctAnswer ==
      LastSignal(kinds[j..ExplanationStart(kinds, j)], d.correctAnswer)
    decreases |lines| - j
  {
    if j == |lines| || kinds[j].ExplanationLine? {
      assert kinds[j..j] == [];
    } else {
      var e := ExplanationStart(kinds, j);
      var tail := kinds[j + 1..e];
      ScanLinesAnswer(lines, kinds, stops, j + 1, Step(kinds[j], d));
      StepSpec(kinds[j], d);
      assert kinds[j..e] == [kinds[j]] + tail;
      LastSignalAppend([kinds[j]], tail, d.correctAnswer);
    }
  }

  /** The line scan from `j`, explanation: the first explanation line's text, or the initial one when there is none. */
  lemma {:induction false} ScanLinesExplanation(lines: seq<string>, kinds: seq<LineKind>, stops: seq<bool>, j: nat, d: Draft)
    requires |kinds| == |lines| && |stops| == |lines| && j <= |lines|
    ensures ScanLines(lines, kinds, stops, j, d).explanation ==
      var e := ExplanationStart(kinds, j);
      if e < |lines| then ExplanationText(lines, stops, e, kinds[e].body) else d.explanation
    decreases |lines| - j
  {
    if j < |lines| && !kinds[j].ExplanationLine? {
      var d' := Step(kinds[j], d);
      ScanLinesExplanation(lines, kinds, stops, j + 1, d');
      assert ScanLines(lines, kinds, stops, j, d) == ScanLines(lines, kinds, stops, j + 1, d');
    }
  }

  /** The placeholder option at position `k`: letter `String.fromCharCode(65 + k)`, text "-". */
  function Placeholder(k: nat): QuizOption
    requires k < 4
  {
    QuizOption([(65 + k) as char], "-")
  }

  /** The padding loop: placeholders are appended until there are four options. */
  function PadOptions(options: seq<QuizOption>): (r: seq<QuizOption>)
    ensures |r| == if |options| < 4 then 4 else |options|
    ensures r[..|options|] == options
    ensures forall k :: |options| <= k < |r| ==> r[k] == Placeholder(k)
    decreases 4 - |options|
  {
    if |options| >= 4 then options
    else
      var r := PadOptions(options + [Placeholder(|options|)]);
      assert r[..|options|] == r[..|options| + 1][..|options|];
      r
  }

  /** Everything a block yields before the acceptance test, or `None` when it is rejected earlier. */
  function BlockDraft(block: string): (r: Option<(string, Draft)>)
  {
    var lines := BlockLines(Trim(block));
    if |lines| < 2 then None
    else
      var question := QuestionText(lines[0]);
      if question == "" then None
      else Some((question, ScanLines(lines, Kinds(lines), Stops(lines), 1, Draft([], "", ""))))
  }

  /** A block is accepted once it has a question, two options and a correct answer. */
  predicate Accepted(question: string, d: Draft) {
    question != "" && |d.options| >= 2 && d.correctAnswer != ""
  }

  /** The record of an accepted block. */
  function Assemble(id: int, question: string, d: Draft): (q: QuizQuestion)
    ensures |q.options| == 4
    ensures forall k :: 0 <= k < 4 ==>
      q.options[k] == if k < |d.options| then d.options[k] else Placeholder(k)
    ensures q.id == id && q.question == question && q.correctAnswer == d.correctAnswer
    ensures q.explanation == if d.explanation == "" then NoExplanation else d.explanation
  {
    var padded := PadOptions(d.options);
    assert forall k :: 0 <= k < |d.options| ==> padded[k] == padded[..|d.options|][k];
    QuizQuestion(id, question, padded[..4], d.correctAnswer,
                 if d.explanation == "" then NoExplanation else d.explanation)
  }

  /** What every emitted record satisfies: four options, a question, an answer letter and an explanation. */
  predicate WellFormed(q: QuizQuestion) {
    |q.options| == 4 && q.question != "" && q.correctAnswer != "" && q.explanation != ""
  }

  /** The question text and draft of a block when it is accepted. */
  function Candidate(block: string): (r: Option<(string, Draft)>)
    ensures r.Some? <==> BlockDraft(block).Some? && Accepted(BlockDraft(block).value.0, BlockDraft(block).value.1)
    ensures r.Some? ==> r == BlockDraft(block)
  {
    var b := BlockDraft(block);
    if b.Some? && Accepted(b.value.0, b.value.1) then b else None
  }

  /** The record a block yields as the `id`-th accepted one, if any. */
  function BlockQuestion(block: string, id: int): (r: Option<QuizQuestion>)
    ensures r.Some? <==> Candidate(block).Some?
    ensures r.Some? ==> r.value.id == id && WellFormed(r.value)
  {
    var c := Candidate(block);
    if c.Some? then Some(Assemble(id, c.value.0, c.value.1)) else None
  }

  /** The kinds of the lines after the question line, up to the first explanation line. */
  function Scanned(lines: seq<string>): seq<LineKind>
    requires |lines| >= 1
  {
    var kinds := Kinds(lines);
    kinds[1..ExplanationStart(kinds, 1)]
  }

  /** An explanation taken from a trimmed line is never empty. */
  lemma ExplanationTextNotEmpty(lines: seq<string>, e: nat)
    requires e < |lines| && lines[e] != [] && !IsSpace(lines[e][|lines[e]| - 1])
    requires Classify(lines[e]).ExplanationLine?
    ensures ExplanationText(lines, Stops(lines), e, Classify(lines[e]).body) != ""
  {
    ExplanationBodyNotBlank(lines[e]);
  }

  /**
   * A block is accepted exactly when it has at least two non-blank lines, a
   * question once the header is removed, and, before its first explanation
   * line, at least two option lines and an answer.
   */
  lemma BlockAccepted(block: string, id: int)
    ensures var lines := BlockLines(Trim(block));
      BlockQuestion(block, id).Some? <==>
        |lines| >= 2 && QuestionText(lines[0]) != "" &&
        |OptionsOf(Scanned(lines))| >= 2 && LastSignal(Scanned(lines), "") != ""
  {
    var lines := BlockLines(Trim(block));
    if |lines| >= 2 {
      ScanLinesOptions(lines, Kinds(lines), Stops(lines), 1, Draft([], "", ""));
      ScanLinesAnswer(lines, Kinds(lines), Stops(lines), 1, Draft([], "", ""));
    }
  }

  /**
   * The record of an accepted block: its question, the options of its
   * option lines in order (duplicates kept) padded with placeholders and cut
   * to four, and the answer of the last line that gives one (a marked option
   * or an answer line; nothing checks that it names a kept option).
   */
  lemma BlockRecord(block: string, id: int)
    requires BlockQuestion(block, id).Some?
    ensures var lines := BlockLines(Trim(block));
      var q := BlockQuestion(block, id).value;
      var options := OptionsOf(Scanned(lines));
      |lines| >= 2 &&
      q.id == id && q.question == QuestionText(lines[0]) &&
      |q.options| == 4 &&
      (forall k :: 0 <= k < 4 ==> q.options[k] == if k < |options| then options[k] else Placeholder(k)) &&
      q.correctAnswer == LastSignal(Scanned(lines), "")
  {
    var lines := BlockLines(Trim(block));
    var d := ScanLines(lines, Kinds(lines), Stops(lines), 1, Draft([], "", ""));
    assert BlockDraft(block) == Some((QuestionText(lines[0]), d));
    ScanLinesOptions(lines, Kinds(lines), Stops(lines), 1, Draft([], "", ""));
    ScanLinesAnswer(lines, Kinds(lines), Stops(lines), 1, Draft([], "", ""));
    assert d.options == OptionsOf(Scanned(lines));
  }

  /** The explanation a block's scan collects is empty exactly when there is no explanation line. */
  lemma DraftExplanation(block: string)
    requires |BlockLines(Trim(block))| >= 1
    ensures var lines := BlockLines(Trim(block));
      var e := ExplanationStart(Kinds(lines), 1);
      var d := ScanLines(lines, Kinds(lines), Stops(lines), 1, Draft([], "", ""));
      (e < |lines| ==> d.explanation == ExplanationText(lines, Stops(lines), e, Kinds(lines)[e].body) != "") &&
      (e == |lines| ==> d.explanation == "")
  {
    var lines := BlockLines(Trim(block));
    var kinds, stops := Kinds(lines), Stops(lines);
    ScanLinesExplanation(lines, kinds, stops, 1, Draft([], "", ""));
    var e := ExplanationStart(kinds, 1);
    if e < |lines| {
      ExplanationTextNotEmpty(lines, e);
    }
  }

  /**
   * The explanation of an accepted block: the text of its first explanation
   * line with the lines that join it, or the default when it has none.
   */
  lemma BlockExplanation(block: string, id: int)
    requires BlockQuestion(block, id).Some?
    ensures var lines := BlockLines(Trim(block));
      var e := ExplanationStart(Kinds(lines), 1);
      |lines| >= 2 &&
      BlockQuestion(block, id).value.explanation ==
        if e < |lines| then ExplanationText(lines, Stops(lines), e, Kinds(lines)[e].body) else NoExplanation
  {
    var lines := BlockLines(Trim(block));
    var d := ScanLines(lines, Kinds(lines), Stops(lines), 1, Draft([], "", ""));
    assert BlockDraft(block) == Some((QuestionText(lines[0]), d));
    assert BlockQuestion(block, id).value == Assemble(id, QuestionText(lines[0]), d);
    DraftExplanation(block);
  }

  /** Every candidate present is an accepted block. */
  predicate AllAccepted(cands: seq<Option<(string, Draft)>>) {
    forall i :: 0 <= i < |cands| && cands[i].Some? ==> Accepted(cands[i].value.0, cands[i].value.1)
  }

  /** The candidates of the blocks, block by block. */
  function Candidates(blocks: seq<string>): (r: seq<Option<(string, Draft)>>)
    ensures |r| == |blocks|
    ensures AllAccepted(r)
  {
    seq(|blocks|, i requires 0 <= i < |blocks| => Candidate(blocks[i]))
  }

  /** The records of the present candidates, numbered from `nextId` in order. */
  function Number(cands: seq<Option<(string, Draft)>>, nextId: int): (r: seq<QuizQuestion>)
    ensures |r| <= |cands|
  {
    if |cands| == 0 then []
    else
      var rest := Number(cands[1..], nextId + (if cands[0].Some? then 1 else 0));
      if cands[0].Some? then [Assemble(nextId, cands[0].value.0, cands[0].value.1)] + rest else rest
  }

  /** The records carry the ids `nextId`, `nextId + 1`, ... in order. */
  predicate NumberedFrom(r: seq<QuizQuestion>, nextId: int) {
    forall i :: 0 <= i < |r| ==> r[i].id == nextId + i
  }

  predicate AllWellFormed(r: seq<QuizQuestion>) {
    forall i :: 0 <= i < |r| ==> WellFormed(r[i])
  }

  /** The records are numbered consecutively from `nextId`, and those of accepted candidates are well formed. */
  lemma {:induction false} NumberFacts(cands: seq<Option<(string, Draft)>>, nextId: int)
    ensures NumberedFrom(Number(cands, nextId), nextId)
    ensures AllAccepted(cands) ==> AllWellFormed(Number(cands, nextId))
    decreases |cands|
  {
    if |cands| > 0 {
      var n := nextId + (if cands[0].Some? then 1 else 0);
      var rest := Number(cands[1..], n);
      NumberFacts(cands[1..], n);
      assert AllAccepted(cands) ==> AllAccepted(cands[1..]) by {
        if AllAccepted(cands) {
          forall i | 0 <= i < |cands[1..]| && cands[1..][i].Some?
            ensures Accepted(cands[1..][i].value.0, cands[1..][i].value.1)
          {
            assert cands[1..][i] == cands[i + 1];
          }
        }
      }
      if cands[0].Some? {
        var r := Number(cands, nextId);
        assert r == [Assemble(nextId, cands[0].value.0, cands[0].value.1)] + rest;
        forall i | 0 <= i < |r| ensures r[i].id == nextId + i && (AllAccepted(cands) ==> WellFormed(r[i])) {
          if i > 0 {
            assert r[i] == rest[i - 1];
            assert rest[i - 1].id == n + (i - 1);
          } else if AllAccepted(cands) {
            assert Accepted(cands[0].value.0, cands[0].value.1);
          }
        }
      }
    }
  }

  /**
   * Numbering counts accepted blocks only: the records of `a + b` are those
   * of `a`, then those of `b` numbered on from where `a` stopped.
   */
  lemma {:induction false} NumberAppend(a: seq<Option<(string, Draft)>>, b: seq<Option<(string, Draft)>>, nextId: int)
    ensures Number(a + b, nextId) == Number(a, nextId) + Number(b, nextId + |Number(a, nextId)|)
    decreases |a|
  {
    if a == [] {
      assert a + b == b;
    } else {
      assert (a + b)[0] == a[0];
      assert (a + b)[1..] == a[1..] + b;
      var n := nextId + (if a[0].Some? then 1 else 0);
      var head := if a[0].Some? then [Assemble(nextId, a[0].value.0, a[0].value.1)] else [];
      var ra, rb := Number(a[1..], n), Number(b, n + |Number(a[1..], n)|);
      NumberAppend(a[1..], b, n);
      assert Number(a, nextId) == head + ra;
      assert Number(a + b, nextId) == head + (ra + rb);
      assert head + (ra + rb) == (head + ra) + rb;
    }
  }

  /** The accepted blocks' records, numbered from `nextId` in block order. */
  function ParseBlocks(blocks: seq<string>, nextId: int): (r: seq<QuizQuestion>)
    ensures |r| <= |blocks|
    ensures forall i :: 0 <= i < |r| ==> r[i].id == nextId + i
    ensures forall i :: 0 <= i < |r| ==> WellFormed(r[i])
  {
    NumberFacts(Candidates(blocks), nextId);
    Number(Candidates(blocks), nextId)
  }

  /** One more candidate adds its record, numbered one past the records so far, exactly when it is present. */
  lemma NumberSnoc(cands: seq<Option<(string, Draft)>>, c: Option<(string, Draft)>, nextId: int)
    ensures var before := Number(cands, nextId);
      Number(cands + [c], nextId) ==
        if c.Some? then before + [Assemble(nextId + |before|, c.value.0, c.value.1)] else before
  {
    var before := Number(cands, nextId);
    var m := nextId + |before|;
    NumberAppend(cands, [c], nextId);
    NumberOne(c, m);
    if c.None? {
      assert before + [] == before;
    }
  }

  lemma NumberOne(c: Option<(string, Draft)>, nextId: int)
    ensures Number([c], nextId) == if c.Some? then [Assemble(nextId, c.value.0, c.value.1)] else []
  {
    assert [c][1..] == [];
  }

  /** The blocks partition the text, and each block after the first starts at a split point. */
  lemma SplitBlocksCuts(text: string)
    ensures Concat(SplitBlocks(text)) == text
    ensures forall i :: 0 <= i < |SplitBlocks(text)| ==> PieceCut(text, Starts(text), 0, SplitBlocks(text), i)
  {
    SplitFromCuts(text, Starts(text), 0, 0);
  }

  /** `parseQuestions(text)`. */
  function Parse(text: string): (r: seq<QuizQuestion>)
  {
    ParseBlocks(NonBlank(SplitBlocks(text)), 1)
  }

  // ----- the parser as the source runs it -----

  /** A line that does not end the explanation joins it after a space. */
  lemma TailStep(lines: seq<string>, stops: seq<bool>, k: nat, acc: string)
    requires |stops| == |lines| && k < |lines| && !stops[k]
    ensures acc + ExplanationTail(lines, stops, k) == (acc + " " + lines[k]) + ExplanationTail(lines, stops, k + 1)
  {
  }

  /** The explanation is complete at the end of the block or at a line that ends it. */
  lemma TailEnd(lines: seq<string>, stops: seq<bool>, k: nat, acc: string)
    requires |stops| == |lines| && k <= |lines| && (k == |lines| || stops[k])
    ensures acc + ExplanationTail(lines, stops, k) == acc
  {
  }

  /**
   * The explanation loop: the lines after the explanation line at `j` are
   * appended after a space until one looks like an option or answer line.
   */
  method CollectExplanation(lines: seq<string>, j: nat, seed: string) returns (explanation: string)
    requires j < |lines|
    ensures explanation == seed + ExplanationTail(lines, Stops(lines), j + 1)
  {
    ghost var stops := Stops(lines);
    ghost var total := seed + ExplanationTail(lines, stops, j + 1);
    explanation := seed;
    var k := j + 1;
    while k < |lines|
      invariant j + 1 <= k <= |lines|
      invariant explanation + ExplanationTail(lines, stops, k) == total
      decreases |lines| - k
    {
      var nextLine := lines[k];
      if LooksLikeOption(nextLine) {
        TailEnd(lines, stops, k, explanation);
        return;
      }
      if AnswerLetter(nextLine).Some? {
        TailEnd(lines, stops, k, explanation);
        return;
      }
      TailStep(lines, stops, k, explanation);
      explanation := explanation + " " + nextLine;
      k := k + 1;
    }
    TailEnd(lines, stops, k, explanation);
  }

  /** The stored id and text of an option line, and whether it is marked correct. */
  method OptionRecord(h: OptionHead) returns (option: QuizOption, marked: bool)
    requires IsOptionLetter(h.letter)
    ensures option == MakeOption(h) && marked == IsMarked(h)
  {
    var optionId := [ToUpper(h.letter)];
    var optionText := Trim(h.body);
    marked := HasCorrectMarker(optionText);
    if marked {
      optionText := CleanMarkers(optionText);
    }
    optionText := Trim(StripWrapStars(optionText));
    option := QuizOption(optionId, optionText);
  }

  /** The loop over the lines of a block after its question line. */
  method ScanBlockLines(lines: seq<string>) returns (d: Draft)
    requires |lines| >= 1
    ensures d == ScanLines(lines, Kinds(lines), Stops(lines), 1, Draft([], "", ""))
  {
    ghost var kinds := Kinds(lines);
    ghost var stops := Stops(lines);
    var options: seq<QuizOption> := [];
    var correctAnswer := "";
    var j := 1;
    while j < |lines|
      invariant 1 <= j <= |lines|
      invariant ScanLines(lines, kinds, stops, j, Draft(options, correctAnswer, "")) == ScanLines(lines, kinds, stops, 1, Draft([], "", ""))
      decreases |lines| - j
    {
      var line := lines[j];
      assert kinds[j] == Classify(line);
      var optionMatch := OptionMatch(line);
      if optionMatch.Some? {
        var option, marked := OptionRecord(optionMatch.value);
        if marked {
          correctAnswer := option.id;
        }
        options := options + [option];
        j := j + 1;
        continue;
      }
      var answerMatch := AnswerLetter(line);
      if answerMatch.Some? {
        correctAnswer := [ToUpper(answerMatch.value)];
        j := j + 1;
        continue;
      }
      var explanationMatch := ExplanationBody(line);
      if explanationMatch.Some? {
        var explanation := CollectExplanation(lines, j, Trim(explanationMatch.value));
        return Draft(options, correctAnswer, explanation);
      }
      j := j + 1;
    }
    return Draft(options, correctAnswer, "");
  }

  /** The validation and padding of a block: placeholders are appended until there are four options. */
  method AssembleQuestion(id: int, question: string, d: Draft) returns (q: QuizQuestion)
    ensures q == Assemble(id, question, d)
  {
    var options := d.options;
    while |options| < 4
      invariant PadOptions(options) == PadOptions(d.options)
      decreases 4 - |options|
    {
      options := options + [QuizOption([(65 + |options|) as char], "-")];
    }
    q := QuizQuestion(id, question, options[..4], d.correctAnswer,
                      if d.explanation == "" then NoExplanation else d.explanation);
  }

  /** An empty block has no lines. */
  lemma NoLinesInEmptyBlock()
    ensures BlockLines("") == []
  {
    assert Split("", '\n') == [""];
  }

  /** The record of a block from its lines, its question text and the draft of its line scan. */
  lemma BlockQuestionOf(block: string, id: int, lines: seq<string>, question: string, d: Draft)
    requires lines == BlockLines(Trim(block)) && |lines| >= 2
    requires question == QuestionText(lines[0]) && d == ScanLines(lines, Kinds(lines), Stops(lines), 1, Draft([], "", ""))
    ensures BlockQuestion(block, id) == if Accepted(question, d) then Some(Assemble(id, question, d)) else None
  {
    assert BlockDraft(block) == if question == "" then None else Some((question, d));
  }

  /** The body of the loop over blocks: the record of one block, numbered `id`, if it is accepted. */
  method ParseBlock(block: string, id: int) returns (q: Option<QuizQuestion>)
    ensures q == BlockQuestion(block, id)
  {
    var trimmed := Trim(block);
    if trimmed == "" {
      NoLinesInEmptyBlock();
      return None;
    }
    var lines := BlockLines(trimmed);
    if |lines| < 2 {
      return None;
    }
    var questionText := QuestionText(lines[0]);
    if questionText == "" {
      return None;
    }
    var d := ScanBlockLines(lines);
    BlockQuestionOf(block, id, lines, questionText, d);
    if questionText != "" && |d.options| >= 2 && d.correctAnswer != "" {
      var r := AssembleQuestion(id, questionText, d);
      return Some(r);
    }
    return None;
  }

  /** One round of the loop over blocks: the block's record, if any, is the next numbered one. */
  lemma NumberStep(cands: seq<Option<(string, Draft)>>, i: nat, done: seq<QuizQuestion>, q: Option<QuizQuestion>)
    requires i < |cands| && done == Number(cands[..i], 1)
    requires q == if cands[i].Some? then Some(Assemble(|done| + 1, cands[i].value.0, cands[i].value.1)) else None
    ensures Number(cands[..i + 1], 1) == if q.Some? then done + [q.value] else done
  {
    assert cands[..i + 1] == cands[..i] + [cands[i]];
    NumberSnoc(cands[..i], cands[i], 1);
  }

  /** `parseQuestions`: the loop over the blocks, numbering the accepted ones from 1. */
  method ParseQuestions(text: string) returns (questions: seq<QuizQuestion>)
    ensures questions == Parse(text)
  {
    questions := [];
    var questionBlocks := NonBlank(SplitBlocks(text));
    ghost var cands := Candidates(questionBlocks);
    for blockIdx := 0 to |questionBlocks|
      invariant questions == Number(cands[..blockIdx], 1)
    {
      var q := ParseBlock(questionBlocks[blockIdx], |questions| + 1);
      NumberStep(cands, blockIdx, questions, q);
      if q.Some? {
        questions := questions + [q.value];
      }
    }
    assert cands[..|questionBlocks|] == cands;
  }

  // ----- the input gate -----

  /** What `handleBulkInputChange` stores: the parsed questions and the error message. */
  datatype GateResult = GateResult(parsed: seq<QuizQuestion>, parseError: Option<string>)

  /** The length gate: parse only above 20 trimmed characters, report an error only above 50. */
  function BulkInputGate(text: string): (g: GateResult)
    ensures Utf16Length(Trim(text)) <= 20 ==> g.parsed == [] && g.parseError.None?
    ensures Utf16Length(Trim(text)) > 20 ==> g.parsed == Parse(text)
    ensures g.parseError.Some? <==> g.parsed == [] && Utf16Length(Trim(text)) > 50
    ensures g.parseError.Some? ==> g.parseError.value == ParseErrorMessage
  {
    var n := Utf16Length(Trim(text));
    if n > 20 then
      var parsed := Parse(text);
      GateResult(parsed, if |parsed| == 0 && n > 50 then Some(ParseErrorMessage) else None)
    else GateResult([], None)
  }

  /** The bulk-input part of the quiz creator form. */
  class BulkInputForm {
    var bulkInput: string
    var parsedQuestions: seq<QuizQuestion>
    var parseError: Option<string>

    constructor ()
      ensures bulkInput == "" && parsedQuestions == [] && parseError == None
    {
      bulkInput := "";
      parsedQuestions := [];
      parseError := None;
    }

    /** `handleBulkInputChange`: store the text, then parse it behind the length gate. */
    method HandleBulkInputChange(text: string)
      modifies this
      ensures bulkInput == text
      ensures parsedQuestions == BulkInputGate(text).parsed
      ensures parseError == BulkInputGate(text).parseError
    {
      bulkInput := text;
      var length := Utf16Length(Trim(text));
      if length > 20 {
        var parsed := ParseQuestions(text);
        parsedQuestions := parsed;
        if |parsed| == 0 && length > 50 {
          parseError := Some(ParseErrorMessage);
        } else {
          parseError := None;
        }
      } else {
        parsedQuestions := [];
        parseError := None;
      }
    }
  }
}
