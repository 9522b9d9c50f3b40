/**
 * The regular expressions of the bulk question parser, each written out as a
 * matcher over characters. Where a pattern can backtrack, the matcher returns
 * the match that a backtracking JavaScript engine reports first. All patterns
 * are non-unicode: `/i` folds ASCII letters only, and the Devanagari keywords
 * and the check marks are literal characters.
 */
module ParserPatterns {
  import opened Wrappers
  import opened JsText

  /** `\*{0,max}` from position `i`, greedy. */
  function StarsAt(s: string, i: nat, max: nat): (n: nat)
    requires i <= |s|
    ensures n <= max && i + n <= |s|
    ensures forall k :: i <= k < i + n ==> s[k] == '*'
    ensures n < max && i + n < |s| ==> s[i + n] != '*'
    decreases max
  {
    if max == 0 || i == |s| || s[i] != '*' then 0 else 1 + StarsAt(s, i + 1, max - 1)
  }

  predicate IsBlank(c: char) { c == ' ' || c == '\t' }

  /** The class `[\s.\-:]`. */
  predicate IsDelimiter(c: char) { IsSpace(c) || c == '.' || c == '-' || c == ':' }

  /** The class `[\s*]`. */
  predicate IsSpaceOrStar(c: char) { IsSpace(c) || c == '*' }

  /** The class `[A-Da-d]`. */
  predicate IsOptionLetter(c: char) { 'A' <= c <= 'D' || 'a' <= c <= 'd' }

  /**
   * Where a capture `(.+)` starts when it follows optional material occupying
   * positions `lo` to `hi`: the engine tries the longest prefix first and gives
   * back one character at a time, so the capture starts at the largest
   * position in `[lo, hi]` that holds a character other than a line terminator.
   */
  function LastDotStart(s: string, lo: nat, hi: nat): (r: Option<nat>)
    requires lo <= hi <= |s|
    ensures r.Some? ==> lo <= r.value <= hi && r.value < |s| && !IsLineTerminator(s[r.value])
    ensures r.Some? ==> forall p :: r.value < p <= hi && p < |s| ==> IsLineTerminator(s[p])
    ensures r.None? ==> forall p :: lo <= p <= hi && p < |s| ==> IsLineTerminator(s[p])
    decreases hi - lo
  {
    if hi < |s| && !IsLineTerminator(s[hi]) then Some(hi)
    else if hi == lo then None
    else LastDotStart(s, lo, hi - 1)
  }

  /** Length of the greedy `.+` / `.*` from `p`: everything up to the next line terminator. */
  function DotRun(s: string, p: nat): (n: nat)
    requires p <= |s|
    ensures p + n <= |s|
    ensures forall k :: p <= k < p + n ==> !IsLineTerminator(s[k])
    ensures p + n < |s| ==> IsLineTerminator(s[p + n])
  {
    RunAt(s, p, c => !IsLineTerminator(c))
  }

  // ----- question headers -----

  predicate IsLineStart(s: string, q: nat)
    requires q <= |s|
  {
    q == 0 || IsLineTerminator(s[q - 1])
  }

  /** End of `Q?\d+[\.\:\)]` (the `Q` in either case) matched at `p`. */
  function NumberedHeader(s: string, p: nat): (r: Option<nat>)
    requires p <= |s|
    ensures r.Some? ==> p < r.value <= |s| && s[r.value - 1] in ".:)"
  {
    var q := if p < |s| && (s[p] == 'Q' || s[p] == 'q') then p + 1 else p;
    var d := RunAt(s, q, IsDigit);
    if d > 0 && q + d < |s| && s[q + d] in ".:)" then Some(q + d + 1) else None
  }

  /** End of `Question\s*\d+[\.\:\s]` (the word in any case) matched at `p`. */
  function WordHeader(s: string, p: nat): (r: Option<nat>)
    requires p <= |s|
    ensures r.Some? ==> p + 8 < r.value <= |s| && HasWordAt(s, p, "question")
  {
    if !HasWordAt(s, p, "question") then None
    else
      var q := p + 8 + RunAt(s, p + 8, IsSpace);
      var d := RunAt(s, q, IsDigit);
      if d > 0 && q + d < |s| && (s[q + d] in ".:" || IsSpace(s[q + d])) then Some(q + d + 1) else None
  }

  /**
   * The split point of the block splitter: the zero-width lookahead
   * `(?=^[ \t]*(?:Q?\d+[\.\:\)]|Question\s*\d+[\.\:\s]))` under flags `gim`
   * succeeds at position `q`.
   */
  predicate BlockStartsAt(s: string, q: nat)
    requires q <= |s|
  {
    IsLineStart(s, q) &&
    var p := q + RunAt(s, q, IsBlank);
    NumberedHeader(s, p).Some? || WordHeader(s, p).Some?
  }

  /**
   * Length of the prefix removed from a block's first line by
   * `/^(?:\*{0,2})(?:Q?\d+[\.\:\)]\s*|Question\s*\d+[\.\:\s])(?:\*{0,2})\s*`/i;
   * 0 when the pattern does not match.
   */
  function QuestionPrefixLength(line: string): (n: nat)
    ensures n <= |line|
    ensures n > 0 ==> NumberedHeader(line, StarsAt(line, 0, 2)).Some? || WordHeader(line, StarsAt(line, 0, 2)).Some?
  {
    var a := StarsAt(line, 0, 2);
    var header :=
      match NumberedHeader(line, a)
      case Some(e) => Some(e + RunAt(line, e, IsSpace))
      case None => WordHeader(line, a);
    match header
    case None => 0
    case Some(e) =>
      var f := e + StarsAt(line, e, 2);
      f + RunAt(line, f, IsSpace)
  }

  /** The question text of a block: its first line without the header, trimmed. */
  function QuestionText(line: string): (r: string)
    ensures |r| <= |line|
    ensures r != [] ==> !IsSpace(r[0]) && !IsSpace(r[|r| - 1])
  {
    Trim(line[QuestionPrefixLength(line)..])
  }

  // ----- option lines -----

  /** The two captures of an option line: the letter as written and the raw option body. */
  datatype OptionHead = OptionHead(letter: char, body: string)

  /**
   * `/^(?:\*{0,2})[\(\[]?([A-Da-d])[\)\]\.:\-](?:\*{0,2})\s*(.+)/`: an option
   * line, its letter and everything after the delimiter (bold markers and
   * spaces skipped), up to the first line terminator.
   */
  function OptionMatch(line: string): (r: Option<OptionHead>)
    ensures r.Some? ==> IsOptionLetter(r.value.letter) && r.value.body != []
    ensures r.Some? ==> forall k :: 0 <= k < |r.value.body| ==> !IsLineTerminator(r.value.body[k])
  {
    var a := StarsAt(line, 0, 2);
    var b := if a < |line| && line[a] in "([" then a + 1 else a;
    if b + 1 < |line| && IsOptionLetter(line[b]) && line[b + 1] in ")].:-" then
      var d := b + 2;
      var e := d + StarsAt(line, d, 2);
      var top := e + RunAt(line, e, IsSpace);
      match LastDotStart(line, d, top)
      case Some(p) =>
        var body := line[p..p + DotRun(line, p)];
        Some(OptionHead(line[b], body))
      case None => None
    else None
  }

  predicate IsCheckMark(c: char) { c == '✓' || c == '✔' || c == '√' }

  predicate NoCheckMarks(t: string) {
    forall k :: 0 <= k < |t| ==> !IsCheckMark(t[k])
  }

  predicate AtStartOrAfterSpace(t: string, i: nat)
    requires i <= |t|
  {
    i == 0 || IsSpace(t[i - 1])
  }

  /** One alternative of `/(?:^|\s)[✓✔√]|(?:^|\s)\(correct\)|\[correct\]/i` matches with its marker at `i`. */
  predicate MarkerAt(t: string, i: nat)
    requires i < |t|
  {
    (AtStartOrAfterSpace(t, i) && (IsCheckMark(t[i]) || HasWordAt(t, i, "(correct)"))) ||
    HasWordAt(t, i, "[correct]")
  }

  /** The correctness-marker test on an option's text. */
  predicate HasCorrectMarker(t: string) {
    exists i :: 0 <= i < |t| && MarkerAt(t, i)
  }

  /** `.replace(/[✓✔√]/g, "")`. */
  function RemoveCheckMarks(t: string): (r: string)
    ensures NoCheckMarks(r)
    ensures NoCheckMarks(t) ==> r == t
    ensures forall k :: 0 <= k < |r| ==> r[k] in t
  {
    if |t| == 0 then ""
    else
      var rest := RemoveCheckMarks(t[1..]);
      if IsCheckMark(t[0]) then rest else [t[0]] + rest
  }

  /**
   * End of a match of `\s*\(?correct\)?\s*` (with `open`/`close` standing for
   * the brackets, case-insensitive) at the start of `t`.
   */
  function CorrectWordEnd(t: string, open: char, close: char): (r: Option<nat>)
    ensures r.Some? ==> 7 <= r.value <= |t|
  {
    var a := RunAt(t, 0, IsSpace);
    var b := if a < |t| && t[a] == open then a + 1 else a;
    if HasWordAt(t, b, "correct") then
      var c := b + 7;
      var c' := if c < |t| && t[c] == close then c + 1 else c;
      Some(c' + RunAt(t, c', IsSpace))
    else None
  }

  /** `.replace(/\s*\(?correct\)?\s*`/gi, "")`, brackets given by `open` and `close`: a left-to-right scan. */
  function RemoveCorrectWords(t: string, open: char, close: char): (r: string)
    ensures multiset(r) <= multiset(t)
    decreases |t|
  {
    if |t| == 0 then ""
    else
      match CorrectWordEnd(t, open, close)
      case Some(e) =>
        assert t == t[..e] + t[e..];
        RemoveCorrectWords(t[e..], open, close)
      case None =>
        assert t == [t[0]] + t[1..];
        [t[0]] + RemoveCorrectWords(t[1..], open, close)
  }

  /** The marker clean-up of a marked option: check marks, then `(correct)`, then `[correct]`, then trim. */
  function CleanMarkers(t: string): (r: string)
    ensures NoCheckMarks(r)
    ensures forall k :: 0 <= k < |r| ==> r[k] in t
  {
    var a := RemoveCheckMarks(t);
    var b := RemoveCorrectWords(a, '(', ')');
    var c := RemoveCorrectWords(b, '[', ']');
    var r := Trim(c);
    forall k | 0 <= k < |r| ensures r[k] in t && !IsCheckMark(r[k]) {
      TrimChars(c, k);
      assert r[k] in multiset(c);
      assert r[k] in multiset(a);
    }
    r
  }

  /** `.replace(/^\*{1,2}|\*{1,2}$/g, "")`: up to two leading and, independently, up to two trailing stars. */
  function StripWrapStars(t: string): (r: string)
    ensures |r| <= |t|
    ensures forall k :: 0 <= k < |r| ==> r[k] in t
  {
    var k := StarsAt(t, 0, 2);
    var rest := t[k..];
    var m := if |rest| >= 2 && rest[|rest| - 1] == '*' && rest[|rest| - 2] == '*' then 2
             else if |rest| >= 1 && rest[|rest| - 1] == '*' then 1
             else 0;
    var r := rest[..|rest| - m];
    assert forall j :: 0 <= j < |r| ==> r[j] == t[k + j];
    r
  }

  // ----- standalone answer lines -----

  /** `[\s.\-:]+(?:[\(\[]?([A-Da-d])[\)\]]?)` at position `e`: the captured letter. */
  function AnswerAfter(line: string, e: nat): (r: Option<char>)
    requires e <= |line|
    ensures r.Some? ==> IsOptionLetter(r.value)
  {
    var n := RunAt(line, e, IsDelimiter);
    var f := e + n;
    var g := if f < |line| && line[f] in "([" then f + 1 else f;
    if n > 0 && g < |line| && IsOptionLetter(line[g]) then Some(line[g]) else None
  }

  /**
   * The keyword alternatives of the answer-line pattern, in the order of the
   * alternation: a first word and, for the two-word keywords, a second word
   * that follows after optional whitespace ("" for the one-word keywords).
   */
  const AnswerKeywords: seq<(string, string)> := [
    ("answer", ""),
    ("correct", "answer"),
    ("correct", ""),
    ("ans", ""),
    ("\U{938}\U{939}\U{940}", "\U{909}\U{924}\U{94D}\U{924}\U{930}"),
    ("\U{909}\U{924}\U{94D}\U{924}\U{930}", "")
  ]

  /** Where one keyword alternative ends when it matches at `a`. */
  function KeywordEnd(line: string, a: nat, keyword: (string, string)): (r: Option<nat>)
    requires a <= |line|
    ensures r.Some? ==> a + |keyword.0| <= r.value <= |line|
  {
    if !HasWordAt(line, a, keyword.0) then None
    else if keyword.1 == "" then Some(a + |keyword.0|)
    else
      var b := a + |keyword.0| + RunAt(line, a + |keyword.0|, IsSpace);
      if HasWordAt(line, b, keyword.1) then Some(b + |keyword.1|) else None
  }

  /** The letter captured by the first alternative of `keywords` after which the rest of the pattern matches. */
  function AnswerFrom(line: string, a: nat, keywords: seq<(string, string)>): (r: Option<char>)
    requires a <= |line|
    ensures r.Some? ==> IsOptionLetter(r.value)
  {
    if |keywords| == 0 then None
    else
      var here := match KeywordEnd(line, a, keywords[0]) case Some(e) => AnswerAfter(line, e) case None => None;
      if here.Some? then here else AnswerFrom(line, a, keywords[1..])
  }

  /**
   * `/^[\s*]*(?:Answer|Correct\s*Answer|Correct|Ans|सही\s*उत्तर|उत्तर)[\s.\-:]+(?:[\(\[]?([A-Da-d])[\)\]]?)/i`:
   * the letter of a standalone answer line. The alternatives are tried in
   * order, so the first keyword after which the rest matches decides.
   */
  function AnswerLetter(line: string): (r: Option<char>)
    ensures r.Some? ==> IsOptionLetter(r.value)
  {
    AnswerFrom(line, RunAt(line, 0, IsSpaceOrStar), AnswerKeywords)
  }

  // ----- explanation lines -----

  /** The explanation keywords, in the order of the alternation. */
  const ExplanationKeywords: seq<string> :=
    ["explanation", "explain", "reason", "why", "note", "\U{935}\U{94D}\U{92F}\U{93E}\U{916}\U{94D}\U{92F}\U{93E}"]

  /** `[\s.\-:]+(.+)` at position `e`: the capture. */
  function ExplanationAfter(line: string, e: nat): (r: Option<string>)
    requires e <= |line|
    ensures r.Some? ==> r.value != []
  {
    var n := RunAt(line, e, IsDelimiter);
    if n == 0 then None
    else
      match LastDotStart(line, e + 1, e + n)
      case Some(p) => Some(line[p..p + DotRun(line, p)])
      case None => None
  }

  /** The first keyword of `keywords` found at `a` after which the rest of the pattern matches. */
  function ExplanationFrom(line: string, a: nat, keywords: seq<string>): (r: Option<string>)
    requires a <= |line|
    ensures r.Some? ==> r.value != []
  {
    if |keywords| == 0 then None
    else
      var here := if HasWordAt(line, a, keywords[0]) then ExplanationAfter(line, a + |keywords[0]|) else None;
      if here.Some? then here else ExplanationFrom(line, a, keywords[1..])
  }

  /** `/^(?:\*{0,2})(?:Explanation|Explain|Reason|Why|Note|व्याख्या)[\s.\-:]+(.+)/i`: the capture. */
  function ExplanationBody(line: string): (r: Option<string>)
    ensures r.Some? ==> r.value != []
  {
    ExplanationFrom(line, StarsAt(line, 0, 2), ExplanationKeywords)
  }

  /**
   * On a line whose last character is not whitespace (every trimmed line),
   * the capture `(.+)` after `[\s.\-:]+` starts at a character that is not
   * whitespace, so it survives trimming.
   */
  lemma ExplanationAfterNotBlank(line: string, e: nat)
    requires e <= |line| && line != [] && !IsSpace(line[|line| - 1])
    ensures ExplanationAfter(line, e).Some? ==> Trim(ExplanationAfter(line, e).value) != ""
  {
    var n := RunAt(line, e, IsDelimiter);
    if n > 0 && LastDotStart(line, e + 1, e + n).Some? {
      var p := LastDotStart(line, e + 1, e + n).value;
      if e + n < |line| {
        assert !IsSpace(line[e + n]);
        assert p == e + n;
      } else if p < |line| - 1 {
        LineTerminatorIsSpace(line[|line| - 1]);
      }
      assert !IsSpace(line[p]);
      var r := line[p..p + DotRun(line, p)];
      assert r[0] == line[p];
    }
  }

  /** What the keyword alternatives capture is the capture after some keyword's end. */
  lemma {:induction false} ExplanationFromAfter(line: string, a: nat, keywords: seq<string>)
    requires a <= |line|
    ensures ExplanationFrom(line, a, keywords).Some? ==>
      exists e :: a <= e <= |line| && ExplanationFrom(line, a, keywords) == ExplanationAfter(line, e)
    decreases |keywords|
  {
    if |keywords| > 0 {
      var here := if HasWordAt(line, a, keywords[0]) then ExplanationAfter(line, a + |keywords[0]|) else None;
      if here.Some? {
        assert ExplanationFrom(line, a, keywords) == ExplanationAfter(line, a + |keywords[0]|);
      } else {
        ExplanationFromAfter(line, a, keywords[1..]);
      }
    }
  }

  lemma ExplanationFromNotBlank(line: string, a: nat, keywords: seq<string>)
    requires a <= |line| && line != [] && !IsSpace(line[|line| - 1])
    ensures ExplanationFrom(line, a, keywords).Some? ==> Trim(ExplanationFrom(line, a, keywords).value) != ""
  {
    ExplanationFromAfter(line, a, keywords);
    if ExplanationFrom(line, a, keywords).Some? {
      var e :| a <= e <= |line| && ExplanationFrom(line, a, keywords) == ExplanationAfter(line, e);
      ExplanationAfterNotBlank(line, e);
    }
  }

  /** The explanation captured from a trimmed line is never blank once trimmed. */
  lemma ExplanationBodyNotBlank(line: string)
    requires line != [] && !IsSpace(line[|line| - 1])
    ensures ExplanationBody(line).Some? ==> Trim(ExplanationBody(line).value) != ""
  {
    ExplanationFromNotBlank(line, StarsAt(line, 0, 2), ExplanationKeywords);
  }

  /** The test that ends explanation collection: `/^[\(\[]?[A-Da-d][\)\]\.:\-]\s/`. */
  predicate LooksLikeOption(line: string) {
    var b := if |line| > 0 && line[0] in "([" then 1 else 0;
    b + 2 < |line| && IsOptionLetter(line[b]) && line[b + 1] in ")].:-" && IsSpace(line[b + 2])
  }

  // ----- how the patterns behave on particular lines -----

  /** The answer letter is not end-anchored: the first letter of a word is taken. */
  lemma AnswerWordTakesInitial()
    ensures AnswerLetter("Answer: Delhi") == Some('D')
  {
    var line := "Answer: Delhi";
    assert RunAt(line, 0, IsSpaceOrStar) == 0 by { assert !IsSpaceOrStar(line[0]); }
    AnswerAlternativeMatches(line);
    assert AnswerFrom(line, 0, AnswerKeywords) == AnswerAfter(line, 6);
  }

  lemma AnswerAlternativeMatches(line: string)
    requires line == "Answer: Delhi"
    ensures KeywordEnd(line, 0, AnswerKeywords[0]) == Some(6)
    ensures AnswerAfter(line, 6) == Some('D')
  {
    assert HasWordAt(line, 0, "answer") by {
      forall k | 0 <= k < 6 ensures EqualFold(line[k], "answer"[k]) { }
    }
    assert RunAt(line, 6, IsDelimiter) == 2 by {
      assert IsDelimiter(line[6]) && IsDelimiter(line[7]) && !IsDelimiter(line[8]);
    }
  }

  /** When "Correct Answer" is not followed by a letter, the "Correct" alternative takes the next word's initial. */
  lemma CorrectAnswerFallsBack()
    ensures AnswerLetter("Correct Answer is B") == Some('A')
  {
    var line := "Correct Answer is B";
    assert RunAt(line, 0, IsSpaceOrStar) == 0 by { assert !IsSpaceOrStar(line[0]); }
    AnswerAlternativeFails(line);
    CorrectAnswerAlternativeFails(line);
    CorrectAlternativeMatches(line);
    assert AnswerFrom(line, 0, AnswerKeywords) == AnswerFrom(line, 0, AnswerKeywords[1..]);
    assert AnswerFrom(line, 0, AnswerKeywords[1..]) == AnswerFrom(line, 0, AnswerKeywords[2..]);
  }

  lemma AnswerAlternativeFails(line: string)
    requires line == "Correct Answer is B"
    ensures KeywordEnd(line, 0, AnswerKeywords[0]) == None
  {
    assert !EqualFold(line[0], "answer"[0]);
  }

  lemma CorrectAnswerAlternativeFails(line: string)
    requires line == "Correct Answer is B"
    ensures KeywordEnd(line, 0, AnswerKeywords[1]) == Some(14)
    ensures AnswerAfter(line, 14) == None
  {
    assert HasWordAt(line, 0, "correct") by {
      forall k | 0 <= k < 7 ensures EqualFold(line[k], "correct"[k]) { }
    }
    assert RunAt(line, 7, IsSpace) == 1 by { assert IsSpace(line[7]) && !IsSpace(line[8]); }
    assert HasWordAt(line, 8, "answer") by {
      forall k | 0 <= k < 6 ensures EqualFold(line[8 + k], "answer"[k]) { }
    }
    assert RunAt(line, 14, IsDelimiter) == 1 by { assert IsDelimiter(line[14]) && !IsDelimiter(line[15]); }
    assert !IsOptionLetter(line[15]);
  }

  lemma CorrectAlternativeMatches(line: string)
    requires line == "Correct Answer is B"
    ensures KeywordEnd(line, 0, AnswerKeywords[2]) == Some(7)
    ensures AnswerAfter(line, 7) == Some('A')
  {
    assert HasWordAt(line, 0, "correct") by {
      forall k | 0 <= k < 7 ensures EqualFold(line[k], "correct"[k]) { }
    }
    assert RunAt(line, 7, IsDelimiter) == 1 by { assert IsDelimiter(line[7]) && !IsDelimiter(line[8]); }
  }

  /** An option line without a space after the delimiter does not end an explanation. */
  lemma TightOptionDoesNotStop()
    ensures OptionMatch("A)Delhi").Some?
    ensures !LooksLikeOption("A)Delhi")
  {
  }

  /** A bracketed marker counts even when glued to the preceding word. */
  lemma BracketMarkerCounts()
    ensures HasCorrectMarker("Delhi[correct]")
    ensures !HasCorrectMarker("Delhi(correct)")
  {
    var t := "Delhi[correct]";
    assert MarkerAt(t, 5) by {
      assert HasWordAt(t, 5, "[correct]");
    }
    var v := "Delhi(correct)";
    forall i | 0 <= i < |v| ensures !MarkerAt(v, i) {
      assert v[i] != '[' && !IsCheckMark(v[i]);
      assert !HasWordAt(v, i, "[correct]") by {
        if i + 9 <= |v| { assert !EqualFold(v[i + 0], "[correct]"[0]); }
      }
      if i == 0 {
        assert !HasWordAt(v, 0, "(correct)") by { assert !EqualFold(v[0], "(correct)"[0]); }
      } else {
        assert !IsSpace(v[i - 1]);
      }
    }
  }

  /** Text without a letter c is left alone by the word pattern. */
  lemma {:induction false} RemoveCorrectWordsNoC(t: string, open: char, close: char)
    requires forall k :: 0 <= k < |t| ==> ToLower(t[k]) != 'c'
    ensures RemoveCorrectWords(t, open, close) == t
  {
    if |t| > 0 {
      var a := RunAt(t, 0, IsSpace);
      var b := if a < |t| && t[a] == open then a + 1 else a;
      assert !HasWordAt(t, b, "correct") by {
        if b + 7 <= |t| {
          assert !EqualFold(t[b + 0], "correct"[0]);
        }
      }
      assert CorrectWordEnd(t, open, close) == None;
      RemoveCorrectWordsNoC(t[1..], open, close);
    }
  }

  /**
   * The splitter admits only blanks before a header number, so a bold header
   * on a later line starts no block, while the same header without stars does.
   */
  lemma BoldHeaderStartsNoBlock(bold: string, plain: string)
    requires bold == "A) x\n**2) Who" && plain == "A) x\n2) Who"
    ensures !BlockStartsAt(bold, 5)
    ensures BlockStartsAt(plain, 5)
  {
    assert IsLineTerminator(bold[4]) && bold[5] == '*' && !IsBlank(bold[5]);
    assert RunAt(bold, 5, IsBlank) == 0 && RunAt(bold, 5, IsDigit) == 0;
    assert !HasWordAt(bold, 5, "question") by { assert !EqualFold(bold[5 + 0], "question"[0]); }
    assert IsLineTerminator(plain[4]) && plain[5] == '2' && !IsBlank(plain[5]);
    assert RunAt(plain, 5, IsBlank) == 0 && !IsDigit(plain[6]) && RunAt(plain, 5, IsDigit) == 1;
  }
}
