/**
 * HTML escaping (frontend/src/lib/validations.ts): `sanitizeHtml` is five
 * global single-character replacements applied one after the other.
 */
module Validations {

  /** `s.replace(/c/g, rep)`: every occurrence of `c` replaced by `rep`. */
  function ReplaceAll(s: string, c: char, rep: string): string
  {
    if s == [] then [] else (if s[0] == c then rep else [s[0]]) + ReplaceAll(s[1..], c, rep)
  }

  lemma {:induction false} ReplaceAllAppend(a: string, b: string, c: char, rep: string)
    ensures ReplaceAll(a + b, c, rep) == ReplaceAll(a, c, rep) + ReplaceAll(b, c, rep)
    decreases |a|
  {
    if a != [] {
      assert (a + b)[1..] == a[1..] + b;
      ReplaceAllAppend(a[1..], b, c, rep);
    } else {
      assert a + b == b;
    }
  }

  /** `sanitizeHtml`: the five replaces in source order. */
  function SanitizeHtml(input: string): string
  {
    ReplaceAll(ReplaceAll(ReplaceAll(ReplaceAll(ReplaceAll(input, '<', "&lt;"), '>', "&gt;"), '"', "&quot;"),
                          '\'', "&#x27;"), '/', "&#x2F;")
  }

  /** The characters `sanitizeHtml` escapes. */
  predicate IsEscaped(c: char)
  {
    c == '<' || c == '>' || c == '"' || c == '\'' || c == '/'
  }

  /** The reference escaping of one character. */
  function EscapeChar(c: char): string
  {
    match c
    case '<' => "&lt;"
    case '>' => "&gt;"
    case '"' => "&quot;"
    case '\'' => "&#x27;"
    case '/' => "&#x2F;"
    case _ => [c]
  }

  /** The reference escaping: each character mapped on its own, in order. */
  function Escape(s: string): (r: string)
    ensures forall i :: 0 <= i < |r| ==> !IsEscaped(r[i])
  {
    if s == [] then [] else EscapeChar(s[0]) + Escape(s[1..])
  }

  /** Sanitising distributes over concatenation. */
  lemma SanitizeAppend(a: string, b: string)
    ensures SanitizeHtml(a + b) == SanitizeHtml(a) + SanitizeHtml(b)
  {
    var s1a := ReplaceAll(a, '<', "&lt;");
    var s1b := ReplaceAll(b, '<', "&lt;");
    ReplaceAllAppend(a, b, '<', "&lt;");
    var s2a := ReplaceAll(s1a, '>', "&gt;");
    var s2b := ReplaceAll(s1b, '>', "&gt;");
    ReplaceAllAppend(s1a, s1b, '>', "&gt;");
    var s3a := ReplaceAll(s2a, '"', "&quot;");
    var s3b := ReplaceAll(s2b, '"', "&quot;");
    ReplaceAllAppend(s2a, s2b, '"', "&quot;");
    var s4a := ReplaceAll(s3a, '\'', "&#x27;");
    var s4b := ReplaceAll(s3b, '\'', "&#x27;");
    ReplaceAllAppend(s3a, s3b, '\'', "&#x27;");
    ReplaceAllAppend(s4a, s4b, '/', "&#x2F;");
  }

  lemma ReplaceAllSingle(c: char, target: char, rep: string)
    ensures ReplaceAll([c], target, rep) == if c == target then rep else [c]
  {
    assert [c][1..] == [];
  }

  /** On one character the chain of replaces is the single mapping: no replacement holds a later target. */
  lemma SanitizeOneChar(c: char)
    ensures SanitizeHtml([c]) == EscapeChar(c)
  {
    if c == '<' {
      SanitizeLt(c);
    } else if c == '>' {
      SanitizeGt(c);
    } else if c == '"' {
      SanitizeQuot(c);
    } else if c == '\'' {
      SanitizeApos(c);
    } else {
      ReplaceAllSingle(c, '<', "&lt;");
      ReplaceAllSingle(c, '>', "&gt;");
      ReplaceAllSingle(c, '"', "&quot;");
      ReplaceAllSingle(c, '\'', "&#x27;");
      ReplaceAllSingle(c, '/', "&#x2F;");
    }
  }

  // Each entity contains none of the characters replaced after it.

  lemma LtIsPlain()
    ensures ReplaceAll("&lt;", '>', "&gt;") == "&lt;"
    ensures ReplaceAll("&lt;", '"', "&quot;") == "&lt;"
    ensures ReplaceAll("&lt;", '\'', "&#x27;") == "&lt;"
    ensures ReplaceAll("&lt;", '/', "&#x2F;") == "&lt;"
  {
  }

  lemma GtIsPlain()
    ensures ReplaceAll("&gt;", '"', "&quot;") == "&gt;"
    ensures ReplaceAll("&gt;", '\'', "&#x27;") == "&gt;"
    ensures ReplaceAll("&gt;", '/', "&#x2F;") == "&gt;"
  {
  }

  lemma QuotIsPlain()
    ensures ReplaceAll("&quot;", '\'', "&#x27;") == "&quot;"
    ensures ReplaceAll("&quot;", '/', "&#x2F;") == "&quot;"
  {
  }

  lemma AposIsPlain()
    ensures ReplaceAll("&#x27;", '/', "&#x2F;") == "&#x27;"
  {
  }

  lemma SanitizeLt(c: char)
    requires c == '<'
    ensures SanitizeHtml([c]) == "&lt;"
  {
    ReplaceAllSingle(c, '<', "&lt;");
    LtIsPlain();
  }

  lemma SanitizeGt(c: char)
    requires c == '>'
    ensures SanitizeHtml([c]) == "&gt;"
  {
    ReplaceAllSingle(c, '<', "&lt;");
    ReplaceAllSingle(c, '>', "&gt;");
    GtIsPlain();
  }

  lemma SanitizeQuot(c: char)
    requires c == '"'
    ensures SanitizeHtml([c]) == "&quot;"
  {
    ReplaceAllSingle(c, '<', "&lt;");
    ReplaceAllSingle(c, '>', "&gt;");
    ReplaceAllSingle(c, '"', "&quot;");
    QuotIsPlain();
  }

  lemma SanitizeApos(c: char)
    requires c == '\''
    ensures SanitizeHtml([c]) == "&#x27;"
  {
    ReplaceAllSingle(c, '<', "&lt;");
    ReplaceAllSingle(c, '>', "&gt;");
    ReplaceAllSingle(c, '"', "&quot;");
    ReplaceAllSingle(c, '\'', "&#x27;");
    AposIsPlain();
  }

  /** The five chained replaces equal the single per-character escaping. */
  lemma {:induction false} SanitizeIsEscape(s: string)
    ensures SanitizeHtml(s) == Escape(s)
    decreases |s|
  {
    if s == [] {
    } else {
      assert s == [s[0]] + s[1..];
      SanitizeAppend([s[0]], s[1..]);
      SanitizeOneChar(s[0]);
      SanitizeIsEscape(s[1..]);
    }
  }

  /** The output holds none of `<`, `>`, `"`, `'`, `/`. */
  lemma SanitizedHasNoTargets(s: string)
    ensures forall i :: 0 <= i < |SanitizeHtml(s)| ==> !IsEscaped(SanitizeHtml(s)[i])
  {
    SanitizeIsEscape(s);
  }

  /** A string without the five targets, such as any `&` entity text, is left alone. */
  lemma {:induction false} EscapeKeepsPlainText(s: string)
    requires forall i :: 0 <= i < |s| ==> !IsEscaped(s[i])
    ensures Escape(s) == s
    decreases |s|
  {
    if s != [] {
      assert !IsEscaped(s[0]);
      EscapeKeepsPlainText(s[1..]);
      assert [s[0]] + s[1..] == s;
    }
  }

  /** Sanitising twice is sanitising once: `&` is not a target, so entities survive. */
  lemma SanitizeIdempotent(s: string)
    ensures SanitizeHtml(SanitizeHtml(s)) == SanitizeHtml(s)
  {
    var t := SanitizeHtml(s);
    SanitizeIsEscape(s);
    SanitizeIsEscape(t);
    EscapeKeepsPlainText(t);
  }
}
