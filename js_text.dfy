/**
 * The pieces of JavaScript's string library that the modelled code relies on:
 * the `\s` character class (shared with `String.prototype.trim`), line
 * terminators (what `.` does not match), greedy character-class runs, `trim`, `split("\n")`, ASCII case
 * folding, substring search and UTF-16 length.
 */
module JsText {

  /** JavaScript `WhiteSpace` and `LineTerminator`: the set matched by `\s` and removed by `trim`. */
  predicate IsSpace(c: char) {
    c == '\t' || c == '\n' || c == '\U{B}' || c == '\U{C}' || c == '\r' || c == ' ' ||
    c == '\U{A0}' || c == '\U{1680}' || ('\U{2000}' <= c <= '\U{200A}') ||
    c == '\U{2028}' || c == '\U{2029}' || c == '\U{202F}' || c == '\U{205F}' || c == '\U{3000}' ||
    c == '\U{FEFF}'
  }

  /** The characters that `.` does not match without the `s` flag, and where `^` matches in multiline mode. */
  predicate IsLineTerminator(c: char) {
    c == '\n' || c == '\r' || c == '\U{2028}' || c == '\U{2029}'
  }

  lemma LineTerminatorIsSpace(c: char)
    requires IsLineTerminator(c)
    ensures IsSpace(c)
  {
  }

  predicate AllSpace(s: string) {
    forall i :: 0 <= i < |s| ==> IsSpace(s[i])
  }

  predicate IsDigit(c: char) {
    '0' <= c <= '9'
  }

  /** Length of the longest run of characters satisfying `inRun` from position `i` (a greedy `[...]*`). */
  function RunAt(s: string, i: nat, inRun: char -> bool): (n: nat)
    requires i <= |s|
    ensures i + n <= |s|
    ensures forall k :: i <= k < i + n ==> inRun(s[k])
    ensures i + n < |s| ==> !inRun(s[i + n])
    decreases |s| - i
  {
    if i == |s| || !inRun(s[i]) then 0 else 1 + RunAt(s, i + 1, inRun)
  }

  /** Number of leading whitespace characters. */
  function LeadingSpaces(s: string): (n: nat)
    ensures n <= |s|
    ensures AllSpace(s[..n])
    ensures n < |s| ==> !IsSpace(s[n])
  {
    if |s| == 0 || !IsSpace(s[0]) then 0
    else
      var m := LeadingSpaces(s[1..]);
      assert s[1..][..m] == s[1..m + 1];
      1 + m
  }

  /** Number of trailing whitespace characters. */
  function TrailingSpaces(s: string): (n: nat)
    ensures n <= |s|
    ensures AllSpace(s[|s| - n..])
    ensures n < |s| ==> !IsSpace(s[|s| - n - 1])
  {
    if |s| == 0 || !IsSpace(s[|s| - 1]) then 0
    else
      var m := TrailingSpaces(s[..|s| - 1]);
      assert s[..|s| - 1][|s| - 1 - m..] == s[|s| - 1 - m..|s| - 1];
      1 + m
  }

  /** `String.prototype.trim`: drop whitespace at both ends. */
  function Trim(s: string): (r: string)
    ensures LeadingSpaces(s) + |r| <= |s|
    ensures r == s[LeadingSpaces(s)..LeadingSpaces(s) + |r|]
    ensures AllSpace(s[LeadingSpaces(s) + |r|..])
    ensures r != [] ==> !IsSpace(r[0]) && !IsSpace(r[|r| - 1])
    ensures r == [] <==> AllSpace(s)
  {
    var t := s[LeadingSpaces(s)..];
    var r := t[..|t| - TrailingSpaces(t)];
    r
  }

  lemma TrimChars(s: string, k: nat)
    requires k < |Trim(s)|
    ensures Trim(s)[k] in s
  {
    assert Trim(s)[k] == s[LeadingSpaces(s) + k];
  }

  /** Every character of `r` occurs in `t`. */
  predicate CharsOf(r: string, t: string) {
    forall k :: 0 <= k < |r| ==> r[k] in t
  }

  /** Trimming keeps only characters of the input. */
  lemma TrimKeepsChars(s: string)
    ensures CharsOf(Trim(s), s)
  {
    forall k | 0 <= k < |Trim(s)| ensures Trim(s)[k] in s {
      TrimChars(s, k);
    }
  }

  lemma CharsOfTrans(a: string, b: string, c: string)
    requires CharsOf(a, b) && CharsOf(b, c)
    ensures CharsOf(a, c)
  {
    forall k | 0 <= k < |a| ensures a[k] in c {
      var j :| 0 <= j < |b| && b[j] == a[k];
    }
  }

  /** `s.split(sep)` for a one-character separator: the pieces between separators, at least one. */
  function Split(s: string, sep: char): (r: seq<string>)
    ensures |r| >= 1
    ensures forall i :: 0 <= i < |r| ==> sep !in r[i]
    ensures Join(r, [sep]) == s
    decreases |s|
  {
    if |s| == 0 then [""]
    else
      var rest := Split(s[1..], sep);
      if s[0] == sep then
        assert Join([""] + rest, [sep]) == "" + [sep] + Join(rest, [sep]);
        [""] + rest
      else
        var r := [[s[0]] + rest[0]] + rest[1..];
        assert rest == [rest[0]] + rest[1..];
        JoinConsHead(s[0], rest, [sep]);
        r
  }

  /** `pieces.join(sep)`. */
  function Join(pieces: seq<string>, sep: string): (r: string)
    ensures |pieces| == 1 ==> r == pieces[0]
  {
    if |pieces| == 0 then ""
    else if |pieces| == 1 then pieces[0]
    else pieces[0] + sep + Join(pieces[1..], sep)
  }

  lemma JoinConsHead(c: char, pieces: seq<string>, sep: string)
    requires |pieces| >= 1
    ensures Join([[c] + pieces[0]] + pieces[1..], sep) == [c] + Join(pieces, sep)
  {
    var p := [[c] + pieces[0]] + pieces[1..];
    if |pieces| > 1 {
      assert p[1..] == pieces[1..];
    }
  }

  /** `pieces.join("")`. */
  function Concat(pieces: seq<string>): (r: string)
    ensures |pieces| == 1 ==> r == pieces[0]
  {
    if |pieces| == 0 then "" else pieces[0] + Concat(pieces[1..])
  }

  lemma ConcatAppend(a: seq<string>, b: seq<string>)
    ensures Concat(a + b) == Concat(a) + Concat(b)
  {
    if |a| == 0 {
      assert a + b == b;
    } else {
      assert (a + b)[1..] == a[1..] + b;
      ConcatAppend(a[1..], b);
    }
  }

  /** Lower-casing of one character, ASCII letters only. */
  function ToLower(c: char): (r: char)
    ensures 'A' <= c <= 'Z' ==> r as int == c as int + 32
    ensures !('A' <= c <= 'Z') ==> r == c
  {
    if 'A' <= c <= 'Z' then (c as int + 32) as char else c
  }

  /** Upper-casing of one character, ASCII letters only. */
  function ToUpper(c: char): (r: char)
    ensures 'a' <= c <= 'z' ==> r as int == c as int - 32
    ensures !('a' <= c <= 'z') ==> r == c
  {
    if 'a' <= c <= 'z' then (c as int - 32) as char else c
  }

  /** `String.prototype.toLowerCase`, ASCII letters only. */
  function Lower(s: string): (r: string)
    ensures |r| == |s|
    ensures forall i :: 0 <= i < |s| ==> r[i] == ToLower(s[i])
  {
    if |s| == 0 then "" else [ToLower(s[0])] + Lower(s[1..])
  }

  /** Case-insensitive equality of two characters as a non-unicode `/i` regex sees ASCII patterns. */
  predicate EqualFold(a: char, b: char) {
    ToLower(a) == ToLower(b)
  }

  /** `s` starts at position `i` with `word`, compared case-insensitively. */
  predicate HasWordAt(s: string, i: nat, word: string) {
    i + |word| <= |s| && forall k :: 0 <= k < |word| ==> EqualFold(s[i + k], word[k])
  }

  /** `s` starts at position `i` with exactly `word`. */
  predicate HasLiteralAt(s: string, i: nat, lit: string) {
    i + |lit| <= |s| && s[i..i + |lit|] == lit
  }

  /** `s.includes(sub)`. */
  predicate Includes(s: string, sub: string) {
    exists i :: 0 <= i <= |s| && HasLiteralAt(s, i, sub)
  }

  lemma EmptyIncluded(s: string)
    ensures Includes(s, "")
  {
    assert HasLiteralAt(s, 0, "");
  }

  /** `s.length` in JavaScript: UTF-16 code units, two for a character outside the Basic Multilingual Plane. */
  function Utf16Length(s: string): (n: nat)
    ensures |s| <= n <= 2 * |s|
  {
    if |s| == 0 then 0 else (if s[0] as int > 0xFFFF then 2 else 1) + Utf16Length(s[1..])
  }
}
