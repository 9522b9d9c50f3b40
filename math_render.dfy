/**
 * The HTML that the math-text component hands to the page: every text segment of the tokenizer's output
 * with its five HTML-special characters escaped, every math segment through the formula renderer, all
 * joined without separator. The formula renderer (KaTeX with its options and its fallback) is a parameter.
 */
module MathRender {
  import opened Wrappers
  import opened JsText
  import opened MathText

  // ---------------------------------------------------------------------------------------------------
  // HTML escaping: five global single-character replacements, in the order `&`, `<`, `>`, `"`, `'`.
  // ---------------------------------------------------------------------------------------------------

  /** `t.replace(/c/g, rep)`: every occurrence of `c` replaced by `rep`. */
  function ReplaceChar(t: string, c: char, rep: string): (r: string)
    decreases |t|
  {
    if |t| == 0 then "" else (if t[0] == c then rep else [t[0]]) + ReplaceChar(t[1..], c, rep)
  }

  lemma {:induction false} ReplaceCharAppend(a: string, b: string, c: char, rep: string)
    ensures ReplaceChar(a + b, c, rep) == ReplaceChar(a, c, rep) + ReplaceChar(b, c, rep)
    decreases |a|
  {
    if |a| == 0 {
      assert a + b == b;
    } else {
      assert (a + b)[0] == a[0] && (a + b)[1..] == a[1..] + b;
      ReplaceCharAppend(a[1..], b, c, rep);
    }
  }

  /** Replacing a character that does not occur changes nothing. */
  lemma {:induction false} ReplaceCharAbsent(t: string, c: char, rep: string)
    requires c !in t
    ensures ReplaceChar(t, c, rep) == t
    decreases |t|
  {
    if |t| > 0 {
      assert t[0] != c && c !in t[1..];
      ReplaceCharAbsent(t[1..], c, rep);
      assert t == [t[0]] + t[1..];
    }
  }

  /** After the replacement, `c` occurs only where `rep` brought it. */
  lemma {:induction false} ReplaceCharRemoves(t: string, c: char, rep: string)
    requires c !in rep
    ensures c !in ReplaceChar(t, c, rep)
    decreases |t|
  {
    if |t| > 0 {
      ReplaceCharRemoves(t[1..], c, rep);
    }
  }

  /** A replacement keeps out any character that neither the input nor `rep` holds. */
  lemma {:induction false} ReplaceCharKeepsOut(t: string, c: char, rep: string, d: char)
    requires d !in t && d !in rep
    ensures d !in ReplaceChar(t, c, rep)
    decreases |t|
  {
    if |t| > 0 {
      assert d !in t[1..];
      ReplaceCharKeepsOut(t[1..], c, rep, d);
    }
  }

  /** `escapeHtml`. */
  function EscapeHtml(t: string): string {
    ReplaceChar(ReplaceChar(ReplaceChar(ReplaceChar(ReplaceChar(t, '&', "&amp;"), '<', "&lt;"), '>', "&gt;"),
      '"', "&quot;"), '\'', "&#039;")
  }

  /** The entity each character becomes. */
  function Entity(c: char): string {
    match c
    case '&' => "&amp;"
    case '<' => "&lt;"
    case '>' => "&gt;"
    case '"' => "&quot;"
    case '\'' => "&#039;"
    case _ => [c]
  }

  /** Reference definition: each character replaced by its entity, independently of the others. */
  function EscapeChars(t: string): string
    decreases |t|
  {
    if |t| == 0 then "" else Entity(t[0]) + EscapeChars(t[1..])
  }

  lemma ReplaceOne(c: char, d: char, rep: string)
    ensures ReplaceChar([c], d, rep) == if c == d then rep else [c]
  {
    assert [c][1..] == "";
  }

  // The five passes on each single character: a special character becomes its entity at its own pass, and
  // the later passes find none of their characters in that entity; any other character passes unchanged.

  /** An entity holding none of the characters of the later passes goes through them unchanged. */
  lemma AfterAmp(e: string)
    requires '<' !in e && '>' !in e && '"' !in e && '\'' !in e
    ensures ReplaceChar(ReplaceChar(ReplaceChar(ReplaceChar(e, '<', "&lt;"), '>', "&gt;"), '"', "&quot;"), '\'', "&#039;") == e
  {
    ReplaceCharAbsent(e, '<', "&lt;");
    ReplaceCharAbsent(e, '>', "&gt;");
    ReplaceCharAbsent(e, '"', "&quot;");
    ReplaceCharAbsent(e, '\'', "&#039;");
  }

  lemma AfterLt(e: string)
    requires '>' !in e && '"' !in e && '\'' !in e
    ensures ReplaceChar(ReplaceChar(ReplaceChar(e, '>', "&gt;"), '"', "&quot;"), '\'', "&#039;") == e
  {
    ReplaceCharAbsent(e, '>', "&gt;");
    ReplaceCharAbsent(e, '"', "&quot;");
    ReplaceCharAbsent(e, '\'', "&#039;");
  }

  lemma AfterGt(e: string)
    requires '"' !in e && '\'' !in e
    ensures ReplaceChar(ReplaceChar(e, '"', "&quot;"), '\'', "&#039;") == e
  {
    ReplaceCharAbsent(e, '"', "&quot;");
    ReplaceCharAbsent(e, '\'', "&#039;");
  }

  lemma EscapeAmp()
    ensures EscapeHtml("&") == "&amp;"
  {
    ReplaceOne('&', '&', "&amp;");
    AfterAmp("&amp;");
  }

  lemma EscapeLt()
    ensures EscapeHtml("<") == "&lt;"
  {
    ReplaceOne('<', '&', "&amp;");
    ReplaceOne('<', '<', "&lt;");
    AfterLt("&lt;");
  }

  lemma EscapeGt()
    ensures EscapeHtml(">") == "&gt;"
  {
    ReplaceOne('>', '&', "&amp;");
    ReplaceOne('>', '<', "&lt;");
    ReplaceOne('>', '>', "&gt;");
    AfterGt("&gt;");
  }

  lemma EscapeQuot()
    ensures EscapeHtml("\"") == "&quot;"
  {
    ReplaceOne('"', '&', "&amp;");
    ReplaceOne('"', '<', "&lt;");
    ReplaceOne('"', '>', "&gt;");
    ReplaceOne('"', '"', "&quot;");
    ReplaceCharAbsent("&quot;", '\'', "&#039;");
  }

  lemma EscapeApos()
    ensures EscapeHtml("'") == "&#039;"
  {
    ReplaceOne('\'', '&', "&amp;");
    ReplaceOne('\'', '<', "&lt;");
    ReplaceOne('\'', '>', "&gt;");
    ReplaceOne('\'', '"', "&quot;");
    ReplaceOne('\'', '\'', "&#039;");
  }

  lemma EscapeOther(c: char)
    requires c != '&' && c != '<' && c != '>' && c != '"' && c != '\''
    ensures EscapeHtml([c]) == [c]
  {
    ReplaceOne(c, '&', "&amp;");
    ReplaceOne(c, '<', "&lt;");
    ReplaceOne(c, '>', "&gt;");
    ReplaceOne(c, '"', "&quot;");
    ReplaceOne(c, '\'', "&#039;");
  }

  /** The five passes, on a single character. */
  lemma EscapeOneChar(c: char)
    ensures EscapeHtml([c]) == Entity(c)
  {
    match c
    case '&' => EscapeAmp();
    case '<' => EscapeLt();
    case '>' => EscapeGt();
    case '"' => EscapeQuot();
    case '\'' => EscapeApos();
    case _ => EscapeOther(c);
  }

  lemma EscapeHtmlAppend(a: string, b: string)
    ensures EscapeHtml(a + b) == EscapeHtml(a) + EscapeHtml(b)
  {
    ReplaceCharAppend(a, b, '&', "&amp;");
    var a1, b1 := ReplaceChar(a, '&', "&amp;"), ReplaceChar(b, '&', "&amp;");
    ReplaceCharAppend(a1, b1, '<', "&lt;");
    var a2, b2 := ReplaceChar(a1, '<', "&lt;"), ReplaceChar(b1, '<', "&lt;");
    ReplaceCharAppend(a2, b2, '>', "&gt;");
    var a3, b3 := ReplaceChar(a2, '>', "&gt;"), ReplaceChar(b2, '>', "&gt;");
    ReplaceCharAppend(a3, b3, '"', "&quot;");
    var a4, b4 := ReplaceChar(a3, '"', "&quot;"), ReplaceChar(b3, '"', "&quot;");
    ReplaceCharAppend(a4, b4, '\'', "&#039;");
  }

  /** The chain of passes escapes each character on its own: no pass rewrites what an earlier pass wrote. */
  lemma {:induction false} EscapeHtmlPerChar(t: string)
    ensures EscapeHtml(t) == EscapeChars(t)
    decreases |t|
  {
    if |t| > 0 {
      assert t == [t[0]] + t[1..];
      EscapeHtmlAppend([t[0]], t[1..]);
      EscapeOneChar(t[0]);
      EscapeHtmlPerChar(t[1..]);
    }
  }

  /** The escaped text holds none of `<`, `>`, `"`, `'`. */
  lemma EscapeHtmlSafe(t: string)
    ensures '<' !in EscapeHtml(t) && '>' !in EscapeHtml(t) && '"' !in EscapeHtml(t) && '\'' !in EscapeHtml(t)
  {
    var s1 := ReplaceChar(t, '&', "&amp;");
    var s2 := ReplaceChar(s1, '<', "&lt;");
    var s3 := ReplaceChar(s2, '>', "&gt;");
    var s4 := ReplaceChar(s3, '"', "&quot;");
    var s5 := ReplaceChar(s4, '\'', "&#039;");
    ReplaceCharRemoves(s1, '<', "&lt;");
    ReplaceCharKeepsOut(s2, '>', "&gt;", '<');
    ReplaceCharKeepsOut(s3, '"', "&quot;", '<');
    ReplaceCharKeepsOut(s4, '\'', "&#039;", '<');
    ReplaceCharRemoves(s2, '>', "&gt;");
    ReplaceCharKeepsOut(s3, '"', "&quot;", '>');
    ReplaceCharKeepsOut(s4, '\'', "&#039;", '>');
    ReplaceCharRemoves(s3, '"', "&quot;");
    ReplaceCharKeepsOut(s4, '\'', "&#039;", '"');
    ReplaceCharRemoves(s4, '\'', "&#039;");
  }

  /** Reading the five entities back: the inverse of escaping. */
  function Unescape(s: string): string
    decreases |s|
  {
    if |s| == 0 then ""
    else if HasLiteralAt(s, 0, "&amp;") then "&" + Unescape(s[5..])
    else if HasLiteralAt(s, 0, "&lt;") then "<" + Unescape(s[4..])
    else if HasLiteralAt(s, 0, "&gt;") then ">" + Unescape(s[4..])
    else if HasLiteralAt(s, 0, "&quot;") then "\"" + Unescape(s[6..])
    else if HasLiteralAt(s, 0, "&#039;") then "'" + Unescape(s[6..])
    else [s[0]] + Unescape(s[1..])
  }

  /** An escaped text that starts with an entity is read as that entity. */
  lemma LiteralHere(lit: string, rest: string)
    ensures HasLiteralAt(lit + rest, 0, lit) && (lit + rest)[|lit|..] == rest
  {
    assert (lit + rest)[0..|lit|] == lit;
  }

  /** A text that differs from `lit` at position `j` does not start with `lit`. */
  lemma NotLiteralAt(s: string, lit: string, j: nat)
    requires j < |lit| && j < |s| && s[j] != lit[j]
    ensures !HasLiteralAt(s, 0, lit)
  {
  }

  /** Unescaping an entity followed by anything gives back the character and then the rest. */
  lemma UnescapeEntity(c: char, rest: string)
    ensures Unescape(Entity(c) + rest) == [c] + Unescape(rest)
  {
    var e := Entity(c);
    var s := e + rest;
    LiteralHere(e, rest);
    assert s[0] == e[0] && |s| >= |e|;
    if c != '&' && e[0] == '&' {
      NotLiteralAt(s, "&amp;", 1);
      if c != '<' {
        NotLiteralAt(s, "&lt;", 1);
        if c != '>' {
          NotLiteralAt(s, "&gt;", 1);
          if c != '"' {
            NotLiteralAt(s, "&quot;", 1);
          }
        }
      }
    } else if c != '&' {
      NotLiteralAt(s, "&amp;", 0);
      NotLiteralAt(s, "&lt;", 0);
      NotLiteralAt(s, "&gt;", 0);
      NotLiteralAt(s, "&quot;", 0);
      NotLiteralAt(s, "&#039;", 0);
    }
  }

  /** Escaping loses nothing: unescaping gives the text back. */
  lemma {:induction false} UnescapeEscape(t: string)
    ensures Unescape(EscapeHtml(t)) == t
    decreases |t|
  {
    EscapeHtmlPerChar(t);
    if |t| > 0 {
      UnescapeEntity(t[0], EscapeChars(t[1..]));
      EscapeHtmlPerChar(t[1..]);
      UnescapeEscape(t[1..]);
      assert t == [t[0]] + t[1..];
    }
  }

  // ---------------------------------------------------------------------------------------------------
  // Rendering.
  // ---------------------------------------------------------------------------------------------------

  /** One segment as HTML: escaped text, or the formula renderer's output for the LaTeX and its mode. */
  function RenderSegment(seg: Segment, render: (string, bool) -> string): string {
    match seg
    case Text(v) => EscapeHtml(v)
    case Math(latex, displayMode) => render(latex, displayMode)
  }

  /** Segments rendered one by one and joined without separator. */
  function RenderSegments(segs: seq<Segment>, render: (string, bool) -> string): (r: string)
    decreases |segs|
  {
    if |segs| == 0 then "" else RenderSegment(segs[0], render) + RenderSegments(segs[1..], render)
  }

  lemma {:induction false} RenderSegmentsAppend(a: seq<Segment>, b: seq<Segment>, render: (string, bool) -> string)
    ensures RenderSegments(a + b, render) == RenderSegments(a, render) + RenderSegments(b, render)
    decreases |a|
  {
    if |a| == 0 {
      assert a + b == b;
    } else {
      assert (a + b)[0] == a[0] && (a + b)[1..] == a[1..] + b;
      RenderSegmentsAppend(a[1..], b, render);
    }
  }

  /** `renderMathText`, with `render` standing for `renderKatexSafe`. */
  function RenderMathText(text: string, render: (string, bool) -> string): string {
    if text == "" then "" else RenderSegments(Tokens(text), render)
  }

  /** Text with no delimited formula is escaped and nothing else. */
  lemma RenderPlainText(text: string, render: (string, bool) -> string)
    requires forall p :: p in Patterns ==> PatternMatch(text, p).None?
    ensures RenderMathText(text, render) == EscapeHtml(text)
  {
    if text != "" {
      FindNextNone(text);
      TokensLast(text);
      assert RenderSegments([Text(text)], render) == EscapeHtml(text) + RenderSegments([], render);
    }
  }

  /** Rendering follows the tokenizer step: escaped text before the first formula, its rendering, the rest. */
  lemma RenderStep(text: string, render: (string, bool) -> string, m: MathMatch, emitted: seq<Segment>, rest: string)
    requires |text| > 0 && FindNext(text) == Some(m)
    requires emitted == if m.index > 0 then [Text(text[..m.index])] else []
    requires rest == text[m.index + |m.fullMatch|..]
    ensures RenderMathText(text, render) == EscapeHtml(text[..m.index]) + render(m.latex, m.displayMode) + RenderMathText(rest, render)
  {
    TokensNext(text, m, emitted, rest);
    var math := [Math(m.latex, m.displayMode)];
    RenderSegmentsAppend(emitted + math, Tokens(rest), render);
    RenderSegmentsAppend(emitted, math, render);
    var a, b, c := RenderSegments(emitted, render), RenderSegments(math, render), RenderSegments(Tokens(rest), render);
    assert RenderMathText(text, render) == a + b + c;
    assert b == render(m.latex, m.displayMode) by {
      assert RenderSegments(math, render) == render(m.latex, m.displayMode) + RenderSegments([], render);
    }
    assert a == EscapeHtml(text[..m.index]) by {
      if m.index > 0 {
        assert RenderSegments(emitted, render) == EscapeHtml(text[..m.index]) + RenderSegments([], render);
      } else {
        assert text[..m.index] == "";
      }
    }
    assert c == RenderMathText(rest, render) by {
      if rest == "" {
        assert Scan(rest) == [];
      }
    }
  }
}
