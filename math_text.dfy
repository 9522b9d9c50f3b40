/**
 * The inline-math renderer of the quiz text: a tokenizer that cuts a string
 * into plain-text and math segments at the earliest of four LaTeX delimiter
 * patterns, HTML escaping of the plain text, and the assembly of the final
 * HTML. The KaTeX renderer itself is a parameter.
 */
module MathText {
  import opened Wrappers
  import opened JsText

  // ----- segments and matches -----

  datatype Segment = Text(value: string) | Math(value: string, displayMode: bool)

  /** One successful delimiter match: where it starts, the whole matched span, the LaTeX inside. */
  datatype MathMatch = MathMatch(index: nat, fullMatch: string, latex: string, displayMode: bool)

  /** The four delimiter patterns, in the order of the pattern table. */
  datatype Delimiter = DisplayDollars | DisplayBrackets | InlineDollar | InlineParens

  const Patterns: seq<Delimiter> := [DisplayDollars, DisplayBrackets, InlineDollar, InlineParens]

  function Open(p: Delimiter): string {
    match p
    case DisplayDollars => "$$"
    case DisplayBrackets => "\\["
    case InlineDollar => "$"
    case InlineParens => "\\("
  }

  function Close(p: Delimiter): string {
    match p
    case DisplayDollars => "$$"
    case DisplayBrackets => "\\]"
    case InlineDollar => "$"
    case InlineParens => "\\)"
  }

  /** The characters a pattern admits between its delimiters. */
  predicate ContentAllowed(p: Delimiter, c: char) {
    match p
    case DisplayDollars => c != '$'
    case DisplayBrackets => true
    case InlineDollar => c != '$' && c != '\n'
    case InlineParens => !IsLineTerminator(c)
  }

  /** The `displayMode` flag of a pattern table entry. */
  predicate DisplayMode(p: Delimiter) {
    p == DisplayDollars || p == DisplayBrackets
  }

  // ----- the four patterns at one position -----

  predicate NotDollar(c: char) { c != '$' }

  predicate NotDollarOrNewline(c: char) { c != '$' && c != '\n' }

  predicate AnyChar(c: char) { true }

  predicate NotLineTerminator(c: char) { !IsLineTerminator(c) }

  /**
   * A lazy `(.+?)` followed by the two-character `close` whose content so
   * far ends at `j`: the first position from `j` on where `close` starts,
   * every character before it passing `allowed`.
   */
  function CloseFrom(text: string, j: nat, close: string, allowed: char -> bool): (r: Option<nat>)
    requires j <= |text|
    ensures r.Some? ==> j <= r.value && HasLiteralAt(text, r.value, close)
    ensures r.Some? ==> forall k :: j <= k < r.value ==> allowed(text[k])
    decreases |text| - j
  {
    if HasLiteralAt(text, j, close) then Some(j)
    else if j < |text| && allowed(text[j]) then CloseFrom(text, j + 1, close, allowed)
    else None
  }

  /** `/\$\$([^$]+?)\$\$/` anchored at `i`: where the closing `$$` starts. */
  function DisplayDollarsAt(text: string, i: nat): (r: Option<nat>)
    requires i <= |text|
  {
    if !HasLiteralAt(text, i, "$$") then None
    else
      var n := RunAt(text, i + 2, NotDollar);
      if n >= 1 && HasLiteralAt(text, i + 2 + n, "$$") then Some(i + 2 + n) else None
  }

  /** `/\\\[(.+?)\\\]/s` anchored at `i`: any characters, line terminators included. */
  function DisplayBracketsAt(text: string, i: nat): (r: Option<nat>)
    requires i <= |text|
  {
    if HasLiteralAt(text, i, "\\[") && i + 2 < |text| then CloseFrom(text, i + 3, "\\]", AnyChar) else None
  }

  /** `/(?<!\\)\$([^$\n]+?)\$(?!\$)/` anchored at `i`. */
  function InlineDollarAt(text: string, i: nat): (r: Option<nat>)
    requires i <= |text|
  {
    if i < |text| && text[i] == '$' && (i == 0 || text[i - 1] != '\\') then
      var n := RunAt(text, i + 1, NotDollarOrNewline);
      var e := i + 1 + n;
      if n >= 1 && e < |text| && text[e] == '$' && (e + 1 == |text| || text[e + 1] != '$') then Some(e) else None
    else None
  }

  /** `/\\\((.+?)\\\)/` anchored at `i`: `.` stops at line terminators. */
  function InlineParensAt(text: string, i: nat): (r: Option<nat>)
    requires i <= |text|
  {
    if HasLiteralAt(text, i, "\\(") && i + 2 < |text| && NotLineTerminator(text[i + 2]) then
      CloseFrom(text, i + 3, "\\)", NotLineTerminator)
    else None
  }

  /** Pattern `p` opens at `i` and closes at `e`, with admissible content between. */
  predicate Delimits(text: string, p: Delimiter, i: nat, e: nat) {
    HasLiteralAt(text, i, Open(p)) && i + |Open(p)| < e && HasLiteralAt(text, e, Close(p)) &&
    forall k :: i + |Open(p)| <= k < e ==> ContentAllowed(p, text[k])
  }

  // Each matcher, when it succeeds, has found its opening and closing delimiters with admissible content between.

  lemma DisplayDollarsDelimits(text: string, i: nat)
    requires i <= |text|
    ensures DisplayDollarsAt(text, i).Some? ==> Delimits(text, DisplayDollars, i, DisplayDollarsAt(text, i).value)
  {
  }

  lemma DisplayBracketsDelimits(text: string, i: nat)
    requires i <= |text|
    ensures DisplayBracketsAt(text, i).Some? ==> Delimits(text, DisplayBrackets, i, DisplayBracketsAt(text, i).value)
  {
  }

  lemma InlineDollarDelimits(text: string, i: nat)
    requires i <= |text|
    ensures InlineDollarAt(text, i).Some? ==> Delimits(text, InlineDollar, i, InlineDollarAt(text, i).value)
  {
  }

  lemma InlineParensDelimits(text: string, i: nat)
    requires i <= |text|
    ensures InlineParensAt(text, i).Some? ==> Delimits(text, InlineParens, i, InlineParensAt(text, i).value)
  {
  }

  /** Where the closing delimiter starts when pattern `p` matches at `i`. */
  function CloseAt(text: string, p: Delimiter, i: nat): (r: Option<nat>)
    requires i <= |text|
    ensures r.Some? ==> Delimits(text, p, i, r.value)
  {
    match p
    case DisplayDollars => DisplayDollarsDelimits(text, i); DisplayDollarsAt(text, i)
    case DisplayBrackets => DisplayBracketsDelimits(text, i); DisplayBracketsAt(text, i)
    case InlineDollar => InlineDollarDelimits(text, i); InlineDollarAt(text, i)
    case InlineParens => InlineParensDelimits(text, i); InlineParensAt(text, i)
  }

  /**
   * `regex.exec(text)` with `lastIndex` reset: the leftmost position from `i`
   * on where `p` matches, with the position of its closing delimiter.
   */
  function FirstAt(text: string, p: Delimiter, i: nat): (r: Option<(nat, nat)>)
    requires i <= |text|
    ensures r.Some? ==> i <= r.value.0 <= |text| && Delimits(text, p, r.value.0, r.value.1)
    ensures forall k :: i <= k <= |text| && (r.None? || k < r.value.0) ==> CloseAt(text, p, k).None?
    decreases |text| - i
  {
    match CloseAt(text, p, i)
    case Some(e) => Some((i, e))
    case None => if i == |text| then None else FirstAt(text, p, i + 1)
  }

  /** A match of `p` in `text` as the pattern table records it. */
  predicate IsMatchOf(text: string, p: Delimiter, m: MathMatch) {
    m.index + |m.fullMatch| <= |text| &&
    text[m.index..m.index + |m.fullMatch|] == m.fullMatch &&
    m.fullMatch == Open(p) + m.latex + Close(p) &&
    m.latex != "" &&
    (forall k :: 0 <= k < |m.latex| ==> ContentAllowed(p, m.latex[k])) &&
    m.displayMode == DisplayMode(p)
  }

  /** The text from an opening literal at `i` through a closing literal at `e` is the two around what lies between. */
  lemma SpanOfDelimited(text: string, open: string, close: string, i: nat, e: nat)
    requires HasLiteralAt(text, i, open) && i + |open| <= e && HasLiteralAt(text, e, close)
    ensures text[i..e + |close|] == open + text[i + |open|..e] + close
  {
    var j := i + |open|;
    assert text[i..e + |close|] == text[i..j] + text[j..e + |close|];
    assert text[j..e + |close|] == text[j..e] + text[e..e + |close|];
  }

  /** The match record for pattern `p` opening at `i` and closing at `e`. */
  function MatchAt(text: string, p: Delimiter, i: nat, e: nat): (m: MathMatch)
    requires Delimits(text, p, i, e)
    ensures m.index == i && IsMatchOf(text, p, m)
  {
    var full := text[i..e + |Close(p)|];
    var latex := text[i + |Open(p)|..e];
    SpanOfDelimited(text, Open(p), Close(p), i, e);
    assert forall k :: 0 <= k < |latex| ==> latex[k] == text[i + |Open(p)| + k];
    MathMatch(i, full, latex, DisplayMode(p))
  }

  /** The result of running pattern `p` over `text`. */
  function PatternMatch(text: string, p: Delimiter): (r: Option<MathMatch>)
    ensures r.Some? ==> IsMatchOf(text, p, r.value)
  {
    var f := FirstAt(text, p, 0);
    if f.Some? then Some(MatchAt(text, p, f.value.0, f.value.1)) else None
  }

  /** The match found is the leftmost one: no earlier position opens a match, and none at all when there is none. */
  lemma PatternMatchLeftmost(text: string, p: Delimiter)
    ensures PatternMatch(text, p).None? ==> forall k :: 0 <= k <= |text| ==> CloseAt(text, p, k).None?
    ensures PatternMatch(text, p).Some? ==>
      forall k :: 0 <= k < PatternMatch(text, p).value.index ==> CloseAt(text, p, k).None?
  {
    var f := FirstAt(text, p, 0);
    assert PatternMatch(text, p).Some? ==> PatternMatch(text, p).value.index == f.value.0;
  }

  // ----- the earliest match -----

  /** The comparison inside the loop over the pattern table: only a strictly smaller index replaces. */
  function Pick(earliest: Option<MathMatch>, m: Option<MathMatch>): Option<MathMatch> {
    if m.Some? && (earliest.None? || m.value.index < earliest.value.index) then m else earliest
  }

  /** The candidates in table order, folded from the left. */
  function Earliest(cands: seq<Option<MathMatch>>): (r: Option<MathMatch>)
    ensures r.Some? ==> r in cands
  {
    if |cands| == 0 then None else Pick(Earliest(cands[..|cands| - 1]), cands[|cands| - 1])
  }

  /** The four patterns run over `text`, in table order. */
  function Candidates(text: string): (r: seq<Option<MathMatch>>)
    ensures |r| == |Patterns|
    ensures forall k :: 0 <= k < |r| ==> r[k] == PatternMatch(text, Patterns[k])
  {
    seq(|Patterns|, k requires 0 <= k < |Patterns| => PatternMatch(text, Patterns[k]))
  }

  lemma CandidatesMatch(text: string)
    ensures MatchesOfPatterns(text, Candidates(text))
  {
  }

  /** Each candidate is a match of the pattern in the same row of the table. */
  predicate MatchesOfPatterns(text: string, cands: seq<Option<MathMatch>>) {
    |cands| == |Patterns| &&
    forall k :: 0 <= k < |cands| && cands[k].Some? ==> IsMatchOf(text, Patterns[k], cands[k].value)
  }

  /** A match in display mode is exactly one delimited by `$$` or `\[`. */
  predicate DisplayDelimited(s: string) {
    HasLiteralAt(s, 0, "$$") || HasLiteralAt(s, 0, "\\[")
  }

  /** `findNextMath`: the earliest match of the four patterns. */
  function FindNext(text: string): (r: Option<MathMatch>)
    ensures r.Some? ==> 0 < |r.value.fullMatch| && r.value.index + |r.value.fullMatch| <= |text|
    ensures r.Some? ==> text[r.value.index..r.value.index + |r.value.fullMatch|] == r.value.fullMatch
    ensures r.Some? ==> (r.value.displayMode <==> DisplayDelimited(r.value.fullMatch))
  {
    var cands := Candidates(text);
    var r := Earliest(cands);
    if r.Some? then CandidatesMatch(text); FoundAmongPatterns(text, cands, r.value); r else r
  }

  lemma FoundAmongPatterns(text: string, cands: seq<Option<MathMatch>>, m: MathMatch)
    requires MatchesOfPatterns(text, cands) && Some(m) in cands
    ensures 0 < |m.fullMatch| && m.index + |m.fullMatch| <= |text|
    ensures text[m.index..m.index + |m.fullMatch|] == m.fullMatch
    ensures m.displayMode <==> DisplayDelimited(m.fullMatch)
  {
    var k :| 0 <= k < |cands| && cands[k] == Some(m);
    DelimitedIffDisplay(text, Patterns[k], m);
  }

  lemma DelimitedIffDisplay(text: string, p: Delimiter, m: MathMatch)
    requires IsMatchOf(text, p, m)
    ensures 0 < |m.fullMatch| && m.index + |m.fullMatch| <= |text|
    ensures text[m.index..m.index + |m.fullMatch|] == m.fullMatch
    ensures m.displayMode <==> DisplayDelimited(m.fullMatch)
  {
    var f := m.fullMatch;
    match p
    case DisplayDollars => assert f[..2] == "$$";
    case DisplayBrackets => assert f[..2] == "\\[";
    case InlineDollar =>
      assert f[1] == m.latex[0] && ContentAllowed(p, m.latex[0]);
      assert f[0..2][1] == f[1] && f[0..2][0] == '$';
    case InlineParens => assert f[..2] == "\\(";
  }

  /** With no candidate there is no earliest match, and with one there is. */
  lemma {:induction false} EarliestNone(cands: seq<Option<MathMatch>>)
    ensures Earliest(cands).None? <==> forall k :: 0 <= k < |cands| ==> cands[k].None?
  {
    if |cands| > 0 {
      var init := cands[..|cands| - 1];
      EarliestNone(init);
      assert forall k :: 0 <= k < |init| ==> init[k] == cands[k];
    }
  }

  /** The earliest match starts no later than any candidate. */
  lemma {:induction false} EarliestMinimal(cands: seq<Option<MathMatch>>, k: nat)
    requires k < |cands| && cands[k].Some?
    ensures Earliest(cands).Some? && Earliest(cands).value.index <= cands[k].value.index
  {
    var init := cands[..|cands| - 1];
    if k < |cands| - 1 {
      assert init[k] == cands[k];
      EarliestMinimal(init, k);
    }
  }

  /** Among candidates starting at the same place, the one first in the table wins. */
  lemma {:induction false} EarliestFirst(cands: seq<Option<MathMatch>>)
    requires Earliest(cands).Some?
    ensures exists k :: (0 <= k < |cands| && cands[k] == Earliest(cands) &&
                         forall j :: 0 <= j < k ==> cands[j].None? || cands[j].value.index > Earliest(cands).value.index)
  {
    var n := |cands| - 1;
    var init := cands[..n];
    var before := Earliest(init);
    if cands[n].Some? && (before.None? || cands[n].value.index < before.value.index) {
      forall j | 0 <= j < n ensures cands[j].None? || cands[j].value.index > cands[n].value.index {
        assert init[j] == cands[j];
        if cands[j].Some? {
          EarliestMinimal(init, j);
        }
      }
    } else {
      EarliestFirst(init);
      var k :| 0 <= k < |init| && init[k] == before &&
        forall j :: 0 <= j < k ==> init[j].None? || init[j].value.index > before.value.index;
      assert cands[k] == Earliest(cands);
      forall j | 0 <= j < k ensures cands[j].None? || cands[j].value.index > Earliest(cands).value.index {
        assert init[j] == cands[j];
      }
    }
  }

  /** `findNextMath` finds a match exactly when one of the four patterns matches. */
  lemma FindNextNone(text: string)
    ensures FindNext(text).None? <==> forall p :: p in Patterns ==> PatternMatch(text, p).None?
  {
    var cands := Candidates(text);
    EarliestNone(cands);
    if FindNext(text).None? {
      forall p | p in Patterns ensures PatternMatch(text, p).None? {
        var k :| 0 <= k < |Patterns| && Patterns[k] == p;
        assert cands[k] == PatternMatch(text, p);
      }
    } else {
      var k :| 0 <= k < |cands| && cands[k].Some?;
      assert Patterns[k] in Patterns;
    }
  }

  /** `findNextMath` returns a match that starts no later than any pattern's match. */
  lemma FindNextLeftmost(text: string, p: Delimiter)
    requires PatternMatch(text, p).Some?
    ensures FindNext(text).Some? && FindNext(text).value.index <= PatternMatch(text, p).value.index
  {
    var k: nat := match p
      case DisplayDollars => 0 case DisplayBrackets => 1 case InlineDollar => 2 case InlineParens => 3;
    assert Candidates(text)[k] == PatternMatch(text, p);
    EarliestMinimal(Candidates(text), k);
  }

  /**
   * On a tie the pattern earlier in the table wins: the result is the match
   * of some pattern, and every earlier pattern either failed or matched later.
   */
  lemma FindNextTieBreak(text: string)
    requires FindNext(text).Some?
    ensures exists k :: (0 <= k < |Patterns| && FindNext(text) == PatternMatch(text, Patterns[k]) &&
                         forall j :: 0 <= j < k ==>
                           PatternMatch(text, Patterns[j]).None? ||
                           PatternMatch(text, Patterns[j]).value.index > FindNext(text).value.index)
  {
    var cands := Candidates(text);
    EarliestFirst(cands);
    var k :| 0 <= k < |cands| && cands[k] == Earliest(cands) &&
      forall j :: 0 <= j < k ==> cands[j].None? || cands[j].value.index > Earliest(cands).value.index;
    assert FindNext(text) == PatternMatch(text, Patterns[k]);
  }

  /** One more candidate is folded in with `Pick`. */
  lemma EarliestStep(cands: seq<Option<MathMatch>>, k: nat, m: Option<MathMatch>)
    requires k < |cands| && m == cands[k]
    ensures Earliest(cands[..k + 1]) == Pick(Earliest(cands[..k]), m)
  {
    assert cands[..k + 1][..k] == cands[..k];
  }

  /** `findNextMath`: the pattern table scanned in order, keeping a match only when it starts strictly earlier. */
  method FindNextMath(text: string) returns (earliest: Option<MathMatch>)
    ensures earliest == FindNext(text)
  {
    ghost var cands := Candidates(text);
    earliest := None;
    for k := 0 to |Patterns|
      invariant earliest == Earliest(cands[..k])
    {
      var m := PatternMatch(text, Patterns[k]);
      EarliestStep(cands, k, m);
      if m.Some? && (earliest.None? || m.value.index < earliest.value.index) {
        earliest := m;
      }
    }
    assert cands[..|Patterns|] == cands;
  }

  // ----- the tokenizer -----

  /** A piece of the input: plain text, or a delimiter match with its span. */
  datatype Piece = Plain(text: string) | Formula(m: MathMatch)

  /** The span of the input a piece covers. */
  function Span(piece: Piece): string {
    match piece
    case Plain(t) => t
    case Formula(m) => m.fullMatch
  }

  /** The segment a piece becomes. */
  function SegmentOf(piece: Piece): Segment {
    match piece
    case Plain(t) => Text(t)
    case Formula(m) => Math(m.latex, m.displayMode)
  }

  /** The spans of `pieces`, concatenated. */
  function Spans(pieces: seq<Piece>): string {
    if |pieces| == 0 then "" else Span(pieces[0]) + Spans(pieces[1..])
  }

  lemma {:induction false} SpansAppend(a: seq<Piece>, b: seq<Piece>)
    ensures Spans(a + b) == Spans(a) + Spans(b)
  {
    if |a| == 0 {
      assert a + b == b;
    } else {
      assert (a + b)[0] == a[0];
      assert (a + b)[1..] == a[1..] + b;
      SpansAppend(a[1..], b);
    }
  }

  /**
   * What the tokenizer relies on in the search for the next match: a match
   * found lies inside the searched text, is the text at its position, and is
   * not empty.
   */
  ghost predicate Finder(next: string -> Option<MathMatch>) {
    forall s :: next(s).Some? ==>
      0 < |next(s).value.fullMatch| && next(s).value.index + |next(s).value.fullMatch| <= |s| &&
      s[next(s).value.index..next(s).value.index + |next(s).value.fullMatch|] == next(s).value.fullMatch
  }

  /** A search whose matches are in display mode exactly when delimited by `$$` or `\\[`. */
  ghost predicate FlagsDisplay(next: string -> Option<MathMatch>) {
    forall s :: next(s).Some? ==> (next(s).value.displayMode <==> DisplayDelimited(next(s).value.fullMatch))
  }

  lemma FindNextFinds()
    ensures Finder(FindNext) && FlagsDisplay(FindNext)
  {
  }

  /**
   * The cut of `input` the tokenizer makes with the search `next`: the text
   * before the earliest match (when there is some), the match, and then the
   * rest cut the same way; with no match left, the rest is one plain piece.
   */
  function ScanWith(input: string, next: string -> Option<MathMatch>): (r: seq<Piece>)
    requires Finder(next)
    decreases |input|
  {
    if |input| == 0 then []
    else
      match next(input)
      case None => [Plain(input)]
      case Some(m) =>
        var before := if m.index > 0 then [Plain(input[..m.index])] else [];
        before + [Formula(m)] + ScanWith(input[m.index + |m.fullMatch|..], next)
  }

  /** No plain piece is empty, and a final plain piece holds no match. */
  lemma {:induction false} ScanWithPlain(input: string, next: string -> Option<MathMatch>)
    requires Finder(next)
    ensures forall k :: 0 <= k < |ScanWith(input, next)| && ScanWith(input, next)[k].Plain? ==>
      ScanWith(input, next)[k].text != ""
    ensures var r := ScanWith(input, next); |r| > 0 && r[|r| - 1].Plain? ==> next(r[|r| - 1].text).None?
    decreases |input|
  {
    if |input| > 0 && next(input).Some? {
      var m := next(input).value;
      var e := m.index + |m.fullMatch|;
      var before := if m.index > 0 then [Plain(input[..m.index])] else [];
      var rest := ScanWith(input[e..], next);
      ScanWithNext(input, next, m, before, input[e..]);
      ScanWithPlain(input[e..], next);
      var r := ScanWith(input, next);
      assert r == (before + [Formula(m)]) + rest;
      forall k | 0 <= k < |r| && r[k].Plain? ensures r[k].text != "" {
        if k >= |before| + 1 {
          assert r[k] == rest[k - |before| - 1];
        }
      }
      if |rest| > 0 {
        assert r[|r| - 1] == rest[|rest| - 1];
      }
    }
  }

  /** The text before a match and the match itself spell out the input up to the end of the match. */
  lemma SpansOfMatch(input: string, m: MathMatch, before: seq<Piece>, e: nat)
    requires e == m.index + |m.fullMatch| <= |input| && input[m.index..e] == m.fullMatch
    requires before == if m.index > 0 then [Plain(input[..m.index])] else []
    ensures Spans(before + [Formula(m)]) == input[..e]
  {
    SpansAppend(before, [Formula(m)]);
    SpansSingle(Formula(m));
    if m.index > 0 {
      SpansSingle(Plain(input[..m.index]));
    }
    assert input[..e] == input[..m.index] + input[m.index..e];
  }

  lemma SpansSingle(piece: Piece)
    ensures Spans([piece]) == Span(piece)
  {
    assert [piece][1..] == [];
  }

  /** The pieces, taken in order, spell out the input. */
  lemma {:induction false} ScanWithPartitions(input: string, next: string -> Option<MathMatch>)
    requires Finder(next)
    ensures Spans(ScanWith(input, next)) == input
    decreases |input|
  {
    if |input| > 0 {
      if next(input).None? {
        ScanWithLast(input, next);
        SpansSingle(Plain(input));
      } else {
        var m := next(input).value;
        var e := m.index + |m.fullMatch|;
        var before := if m.index > 0 then [Plain(input[..m.index])] else [];
        ScanWithPartitions(input[e..], next);
        PartitionStep(input, next, m, before, input[e..]);
      }
    }
  }

  /** A round of the cut spells out the input when the cut of the rest spells out the rest. */
  lemma PartitionStep(input: string, next: string -> Option<MathMatch>, m: MathMatch, before: seq<Piece>, rest: string)
    requires Finder(next) && |input| > 0 && next(input) == Some(m)
    requires before == if m.index > 0 then [Plain(input[..m.index])] else []
    requires rest == input[m.index + |m.fullMatch|..]
    requires Spans(ScanWith(rest, next)) == rest
    ensures Spans(ScanWith(input, next)) == input
  {
    var e := m.index + |m.fullMatch|;
    ScanWithNext(input, next, m, before, rest);
    SpansOfMatch(input, m, before, e);
    SpansAppend(before + [Formula(m)], ScanWith(rest, next));
    assert input == input[..e] + rest;
  }

  /** Every match the scan records is non-empty, and in display mode exactly when delimited by `$$` or `\\[`. */
  lemma {:induction false} ScanWithFormulas(input: string, next: string -> Option<MathMatch>, k: nat)
    requires Finder(next) && FlagsDisplay(next)
    requires k < |ScanWith(input, next)| && ScanWith(input, next)[k].Formula?
    ensures 0 < |ScanWith(input, next)[k].m.fullMatch|
    ensures ScanWith(input, next)[k].m.displayMode <==> DisplayDelimited(ScanWith(input, next)[k].m.fullMatch)
    decreases |input|
  {
    var m := next(input).value;
    var e := m.index + |m.fullMatch|;
    var before := if m.index > 0 then [Plain(input[..m.index])] else [];
    var n := |before| + 1;
    if k >= n {
      assert ScanWith(input, next)[k] == ScanWith(input[e..], next)[k - n];
      ScanWithFormulas(input[e..], next, k - n);
    }
  }

  /** The cut of `input` that `tokenize` makes, searching with `findNextMath`. */
  function Scan(input: string): seq<Piece> {
    FindNextFinds();
    ScanWith(input, FindNext)
  }

  /** Every formula piece of the cut is a non-empty span, flagged as display math exactly when delimited by `$$` or `\\[`. */
  lemma ScanFormulas(input: string, k: nat)
    requires k < |Scan(input)| && Scan(input)[k].Formula?
    ensures 0 < |Scan(input)[k].m.fullMatch|
    ensures Scan(input)[k].m.displayMode <==> DisplayDelimited(Scan(input)[k].m.fullMatch)
  {
    FindNextFinds();
    ScanWithFormulas(input, FindNext, k);
  }

  /** The segments of the pieces. */
  function Segments(pieces: seq<Piece>): (r: seq<Segment>)
    ensures |r| == |pieces|
    ensures forall k :: 0 <= k < |pieces| ==> r[k] == SegmentOf(pieces[k])
  {
    seq(|pieces|, k requires 0 <= k < |pieces| => SegmentOf(pieces[k]))
  }

  lemma SegmentsAppend(a: seq<Piece>, b: seq<Piece>)
    ensures Segments(a + b) == Segments(a) + Segments(b)
  {
    assert forall k :: 0 <= k < |a| ==> (a + b)[k] == a[k];
    assert forall k :: |a| <= k < |a| + |b| ==> (a + b)[k] == b[k - |a|];
  }

  /** What `tokenize` returns. */
  function Tokens(input: string): seq<Segment> {
    Segments(Scan(input))
  }

  /** No text segment is empty. */
  lemma TokensTextNonEmpty(input: string)
    ensures forall k :: 0 <= k < |Tokens(input)| && Tokens(input)[k].Text? ==> Tokens(input)[k].value != ""
  {
    FindNextFinds();
    ScanWithPlain(input, FindNext);
  }

  /** With any search `next`, the text of a final text segment is one where `next` finds nothing. */
  lemma SegmentsLastText(input: string, next: string -> Option<MathMatch>, t: seq<Segment>)
    requires Finder(next) && t == Segments(ScanWith(input, next))
    ensures |t| > 0 && t[|t| - 1].Text? ==> next(t[|t| - 1].value).None?
  {
    var r := ScanWith(input, next);
    ScanWithPlain(input, next);
    if |r| > 0 {
      assert t[|r| - 1] == SegmentOf(r[|r| - 1]);
    }
  }

  /** In a final text segment the search finds no match (by `FindNextNone`, no pattern matches there). */
  lemma TokensTextLast(input: string)
    ensures |Tokens(input)| > 0 && Tokens(input)[|Tokens(input)| - 1].Text? ==>
      FindNext(Tokens(input)[|Tokens(input)| - 1].value).None?
  {
    FindNextFinds();
    SegmentsLastText(input, FindNext, Tokens(input));
  }

  /** The text segments and the matched spans, in order, make up the input. */
  lemma TokensPartition(input: string)
    ensures Spans(Scan(input)) == input
    ensures |Tokens(input)| == |Scan(input)|
    ensures forall k :: 0 <= k < |Scan(input)| ==>
      (Tokens(input)[k].Text? <==> Scan(input)[k].Plain?) &&
      (Scan(input)[k].Plain? ==> Tokens(input)[k].value == Span(Scan(input)[k]))
  {
    FindNextFinds();
    ScanWithPartitions(input, FindNext);
  }

  /** One round of the tokenizer loop on the cut with search `next`, when nothing matches. */
  lemma ScanWithLast(input: string, next: string -> Option<MathMatch>)
    requires Finder(next) && |input| > 0 && next(input).None?
    ensures ScanWith(input, next) == [Plain(input)]
  {
  }

  /** One round of the tokenizer loop on the cut with search `next`: before the match, the match, the rest. */
  lemma ScanWithNext(input: string, next: string -> Option<MathMatch>, m: MathMatch, before: seq<Piece>, rest: string)
    requires Finder(next) && |input| > 0 && next(input) == Some(m)
    requires before == if m.index > 0 then [Plain(input[..m.index])] else []
    requires rest == input[m.index + |m.fullMatch|..]
    ensures ScanWith(input, next) == before + [Formula(m)] + ScanWith(rest, next)
  {
  }

  /** One round of the tokenizer loop on the cut, when nothing matches. */
  lemma ScanLast(input: string)
    requires |input| > 0 && FindNext(input).None?
    ensures Scan(input) == [Plain(input)]
  {
    FindNextFinds();
    ScanWithLast(input, FindNext);
  }

  /** One round of the tokenizer loop on the cut: the text before the match, the match, the rest. */
  lemma ScanNext(input: string, m: MathMatch, before: seq<Piece>, rest: string)
    requires |input| > 0 && FindNext(input) == Some(m)
    requires before == if m.index > 0 then [Plain(input[..m.index])] else []
    requires rest == input[m.index + |m.fullMatch|..]
    ensures Scan(input) == before + [Formula(m)] + Scan(rest)
  {
    FindNextFinds();
    ScanWithNext(input, FindNext, m, before, rest);
  }

  /** One round of the tokenizer loop on the segments, when nothing matches. */
  lemma TokensLast(input: string)
    requires |input| > 0 && FindNext(input).None?
    ensures Tokens(input) == [Text(input)]
  {
    ScanLast(input);
    assert Segments([Plain(input)]) == [Text(input)];
  }

  /** One round of the tokenizer loop on the segments: the text before the match, the math, the rest. */
  lemma TokensNext(input: string, m: MathMatch, emitted: seq<Segment>, rest: string)
    requires |input| > 0 && FindNext(input) == Some(m)
    requires emitted == if m.index > 0 then [Text(input[..m.index])] else []
    requires rest == input[m.index + |m.fullMatch|..]
    ensures Tokens(input) == emitted + [Math(m.latex, m.displayMode)] + Tokens(rest)
  {
    var before := if m.index > 0 then [Plain(input[..m.index])] else [];
    ScanNext(input, m, before, rest);
    SegmentsAppend(before + [Formula(m)], Scan(rest));
    SegmentsAppend(before, [Formula(m)]);
    assert Segments(before) == emitted;
    assert Segments([Formula(m)]) == [Math(m.latex, m.displayMode)];
  }

  lemma Regroup(all: seq<Segment>, a: seq<Segment>, rest: seq<Segment>, b: seq<Segment>, c: seq<Segment>, d: seq<Segment>)
    requires all == a + rest && rest == b + c + d
    ensures all == a + b + c + d
  {
  }

  /** The loop invariant of `tokenize` carried over one match. */
  lemma TokenizeStep(input: string, done: seq<Segment>, remaining: string, m: MathMatch, emitted: seq<Segment>, rest: string)
    requires Tokens(input) == done + Tokens(remaining)
    requires |remaining| > 0 && FindNext(remaining) == Some(m)
    requires emitted == if m.index > 0 then [Text(remaining[..m.index])] else []
    requires rest == remaining[m.index + |m.fullMatch|..]
    ensures Tokens(input) == done + emitted + [Math(m.latex, m.displayMode)] + Tokens(rest)
  {
    TokensNext(remaining, m, emitted, rest);
    Regroup(Tokens(input), done, Tokens(remaining), emitted, [Math(m.latex, m.displayMode)], Tokens(rest));
  }

  /** `tokenize`: repeatedly take the earliest match in what remains, emitting the text before it and the math. */
  method Tokenize(input: string) returns (segments: seq<Segment>)
    ensures segments == Tokens(input)
  {
    segments := [];
    var remaining := input;
    while |remaining| > 0
      invariant Tokens(input) == segments + Tokens(remaining)
      decreases |remaining|
    {
      var found := FindNextMath(remaining);
      if found.None? {
        TokensLast(remaining);
        segments := segments + [Text(remaining)];
        break;
      }
      var m := found.value;
      var emitted: seq<Segment> := [];
      if m.index > 0 {
        emitted := [Text(remaining[..m.index])];
      }
      ghost var rest := remaining[m.index + |m.fullMatch|..];
      TokenizeStep(input, segments, remaining, m, emitted, rest);
      segments := segments + emitted + [Math(m.latex, m.displayMode)];
      remaining := remaining[m.index + |m.fullMatch|..];
    }
  }
}
