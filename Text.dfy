/**
 * The JavaScript regular expressions of the analyzer, stated as predicates
 * over strings.
 *
 * Case-insensitive (`/i`) patterns compare under ASCII case folding: every
 * pattern here is ASCII, and a JavaScript `/i` match without the `u` flag
 * never folds a character at or above U+0080 onto one below it, so ASCII
 * folding decides exactly the same matches. `^` under the `m` flag matches at
 * index 0 and right after a line terminator; `\s` is JavaScript's whitespace
 * class; `.` is any character but a line terminator.
 */
module Text {

  /** The ECMAScript LineTerminator characters. */
  predicate IsLineTerminator(c: char) {
    c == '\n' || c == '\r' || c == '\U{2028}' || c == '\U{2029}'
  }

  /** The ECMAScript `\s` class: WhiteSpace (including every Zs character) and LineTerminator. */
  predicate IsJsSpace(c: char) {
    || IsLineTerminator(c)
    || c == '\t' || c == '\U{000B}' || c == '\U{000C}' || c == ' '
    || c == '\U{00A0}' || c == '\U{1680}' || ('\U{2000}' <= c <= '\U{200A}')
    || c == '\U{202F}' || c == '\U{205F}' || c == '\U{3000}' || c == '\U{FEFF}'
  }

  /** The ECMAScript `\d` class (ASCII digits only). */
  predicate IsDigit(c: char) {
    '0' <= c <= '9'
  }

  function AsciiLower(c: char): (d: char)
    ensures 'A' <= c <= 'Z' ==> 'a' <= d <= 'z' && d as int == c as int + 32
    ensures !('A' <= c <= 'Z') ==> d == c
  {
    if 'A' <= c <= 'Z' then (c as int + 32) as char else c
  }

  predicate SameIgnoringCase(a: char, b: char) {
    AsciiLower(a) == AsciiLower(b)
  }

  /** Pattern `p` occurs literally (case-sensitively) at index `i` of `s`. */
  predicate LiteralAt(s: string, i: int, p: string) {
    0 <= i && i + |p| <= |s| && s[i..i + |p|] == p
  }

  lemma LiteralAtChars(s: string, i: int, p: string)
    ensures LiteralAt(s, i, p) ==> forall k :: 0 <= k < |p| ==> s[i + k] == p[k]
  {
    if LiteralAt(s, i, p) {
      forall k | 0 <= k < |p| ensures s[i + k] == p[k] {
        assert s[i..i + |p|][k] == s[i + k];
      }
    }
  }

  /** Pattern `p` occurs at index `i` of `s`, ignoring ASCII case. */
  predicate MatchesAt(s: string, i: int, p: string) {
    0 <= i && i + |p| <= |s| && forall k :: 0 <= k < |p| ==> SameIgnoringCase(s[i + k], p[k])
  }

  /** `/^p/i` */
  predicate StartsWithIgnoringCase(s: string, p: string) {
    MatchesAt(s, 0, p)
  }

  /** `/p/i` */
  predicate ContainsIgnoringCase(s: string, p: string) {
    exists i | 0 <= i <= |s| :: MatchesAt(s, i, p)
  }

  /** A pattern one of whose characters appears nowhere in `s`, in either case, is not found in it. */
  lemma AbsentCharRulesOut(s: string, p: string, k: int)
    requires 0 <= k < |p|
    requires forall i :: 0 <= i < |s| ==> !SameIgnoringCase(s[i], p[k])
    ensures !ContainsIgnoringCase(s, p)
  {
    forall i | 0 <= i <= |s| ensures !MatchesAt(s, i, p) {
      if i + |p| <= |s| {
        assert !SameIgnoringCase(s[i + k], p[k]);
      }
    }
  }

  /** Where `^` matches under the `m` flag. */
  predicate AtLineStart(s: string, i: int) {
    0 <= i <= |s| && (i == 0 || IsLineTerminator(s[i - 1]))
  }

  /** A line of `s` starts at `i` with `p` followed by a `\s` character. */
  predicate LineOpensWith(s: string, i: int, p: string) {
    AtLineStart(s, i) && LiteralAt(s, i, p) && i + |p| < |s| && IsJsSpace(s[i + |p|])
  }

  /** `/^#\s/m` */
  predicate HasLevel1Heading(s: string) {
    exists i | 0 <= i <= |s| :: LineOpensWith(s, i, "#")
  }

  /** `/^##\s/m` */
  predicate HasLevel2Heading(s: string) {
    exists i | 0 <= i <= |s| :: LineOpensWith(s, i, "##")
  }

  /** `/```[\s\S]*?```/`: a fence and a later fence that does not overlap it. */
  predicate HasCodeBlock(s: string) {
    exists i, j | 0 <= i <= j <= |s| :: i + 3 <= j && LiteralAt(s, i, "```") && LiteralAt(s, j, "```")
  }

  /** No line terminator among `s[i..k]`. */
  predicate OnOneLine(s: string, i: int, k: int) {
    0 <= i <= k <= |s| && forall m :: i <= m < k ==> !IsLineTerminator(s[m])
  }

  /** `/!\[.*?\]\(.*?\)/`: `![`, later `](`, later `)`, all on one line. */
  predicate HasMarkdownImage(s: string) {
    exists i, j, k | 0 <= i <= j <= k <= |s| ::
      && i + 2 <= j && j + 2 <= k
      && LiteralAt(s, i, "![") && LiteralAt(s, j, "](") && LiteralAt(s, k, ")")
      && OnOneLine(s, i, k)
  }

  /** `/!\[.*?\]\(.*?\)/ || /<img/i` */
  predicate HasImage(s: string) {
    HasMarkdownImage(s) || ContainsIgnoringCase(s, "<img")
  }

  /** A line of `s` starts at `i` with `*`, `-` or one digit and `.`, then a `\s` character. */
  predicate ListItemAt(s: string, i: int) {
    && AtLineStart(s, i)
    && (|| (i + 1 < |s| && (s[i] == '*' || s[i] == '-') && IsJsSpace(s[i + 1]))
        || (i + 2 < |s| && IsDigit(s[i]) && s[i + 1] == '.' && IsJsSpace(s[i + 2])))
  }

  /** `/^(\*|-|\d\.)\s/m` */
  predicate HasList(s: string) {
    exists i | 0 <= i <= |s| :: ListItemAt(s, i)
  }

  /** A text without `!` has no Markdown image. */
  lemma NoBangNoMarkdownImage(s: string)
    requires forall i | 0 <= i < |s| :: s[i] != '!'
    ensures !HasMarkdownImage(s)
  {
    assert "!["[0] == '!';
    forall i | 0 <= i <= |s| ensures !LiteralAt(s, i, "![") {
      LiteralAtChars(s, i, "![");
    }
  }

  /** A text without `*`, `-` or digits has no list line. */
  lemma NoMarkerNoList(s: string)
    requires forall i | 0 <= i < |s| :: s[i] != '*' && s[i] != '-' && !IsDigit(s[i])
    ensures !HasList(s)
  {
  }

  /** `/npm install|pip install|go get|cargo build|yarn add/i` */
  predicate HasInstallCommand(s: string) {
    || ContainsIgnoringCase(s, "npm install")
    || ContainsIgnoringCase(s, "pip install")
    || ContainsIgnoringCase(s, "go get")
    || ContainsIgnoringCase(s, "cargo build")
    || ContainsIgnoringCase(s, "yarn add")
  }

  /** `/usage|example|demo/i` */
  predicate HasUsageHint(s: string) {
    || ContainsIgnoringCase(s, "usage")
    || ContainsIgnoringCase(s, "example")
    || ContainsIgnoringCase(s, "demo")
  }

  /** `s` with every ASCII capital replaced by its small letter. */
  function LowerAscii(s: string): (t: string)
    ensures |t| == |s| && forall k :: 0 <= k < |s| ==> t[k] == AsciiLower(s[k])
  {
    seq(|s|, k requires 0 <= k < |s| => AsciiLower(s[k]))
  }

  /** Case-insensitive matching cannot tell a text from its lower-cased copy. */
  lemma ContainsIgnoringCaseOfLower(s: string, p: string)
    ensures ContainsIgnoringCase(LowerAscii(s), p) <==> ContainsIgnoringCase(s, p)
  {
    var t := LowerAscii(s);
    if ContainsIgnoringCase(s, p) {
      var i :| 0 <= i <= |s| && MatchesAt(s, i, p);
      assert MatchesAt(t, i, p) by {
        forall k | 0 <= k < |p| ensures SameIgnoringCase(t[i + k], p[k]) {
          assert SameIgnoringCase(s[i + k], p[k]);
        }
      }
    }
    if ContainsIgnoringCase(t, p) {
      var i :| 0 <= i <= |t| && MatchesAt(t, i, p);
      assert MatchesAt(s, i, p) by {
        forall k | 0 <= k < |p| ensures SameIgnoringCase(s[i + k], p[k]) {
          assert SameIgnoringCase(t[i + k], p[k]);
        }
      }
    }
  }
}
