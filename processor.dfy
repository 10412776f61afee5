/**
 * The separation driver of backend/python/processor.py: `AudioProcessor`
 * strips quotes from the input path, builds the Demucs command line, reads
 * the tool's stderr line by line turning `NN%` lines into progress
 * callbacks, and maps the exit code to a result holding the stems map.
 *
 * The file system, the child process and the device probe are an
 * `Environment` value: path resolution, existence tests, the lines the tool
 * writes to stderr, its exit code and the listing of its output directory.
 */
module Processor {
  import opened Wrappers
  import opened Strings

  /** The separation model passed to Demucs. */
  const ModelName: string := "htdemucs"

  datatype Device = Cuda | Mps | Cpu

  function DeviceName(d: Device): string
  {
    match d
    case Cuda => "cuda"
    case Mps => "mps"
    case Cpu => "cpu"
  }

  /** An `AudioProcessor` after construction; the device is what the hardware probe chose. */
  datatype AudioProcessor = AudioProcessor(outputDir: string, stems: int := 2, device: Device)

  // ---------------------------------------------------------------------------
  // Quote stripping (Python `str.strip(chars)` with a single character)
  // ---------------------------------------------------------------------------

  function StripLeft(s: string, c: char): (r: string)
    ensures |r| <= |s| && r == s[|s| - |r|..]
    ensures forall k :: 0 <= k < |s| - |r| ==> s[k] == c
    ensures r == [] || r[0] != c
  {
    if s != [] && s[0] == c then StripLeft(s[1..], c) else s
  }

  function StripRight(s: string, c: char): (r: string)
    ensures |r| <= |s| && r == s[..|r|]
    ensures forall k :: |r| <= k < |s| ==> s[k] == c
    ensures r == [] || r[|r| - 1] != c
  {
    if s != [] && s[|s| - 1] == c then StripRight(s[..|s| - 1], c) else s
  }

  /** `s.strip(c)`: every leading and every trailing `c` removed, nothing else. */
  function Strip(s: string, c: char): (r: string)
  {
    StripRight(StripLeft(s, c), c)
  }

  /**
   * Stripping keeps a contiguous middle slice of the input, drops only
   * copies of `c` around it, and leaves no `c` at either end.
   */
  lemma StripKeepsMiddle(s: string, c: char)
    ensures var r := Strip(s, c);
      var i := |s| - |StripLeft(s, c)|;
      && i + |r| <= |s| && r == s[i..i + |r|]
      && (forall k :: 0 <= k < i ==> s[k] == c)
      && (forall k :: i + |r| <= k < |s| ==> s[k] == c)
      && (r == [] || (r[0] != c && r[|r| - 1] != c))
  {
    StripIsSlice(s, c);
    StripDropsTail(s, c);
    var l := StripLeft(s, c);
    var r := StripRight(l, c);
    if r != [] {
      assert r[0] == l[0];
    }
  }

  lemma StripIsSlice(s: string, c: char)
    ensures var i := |s| - |StripLeft(s, c)|;
      i + |Strip(s, c)| <= |s| && Strip(s, c) == s[i..i + |Strip(s, c)|]
  {
    var l := StripLeft(s, c);
    var r := StripRight(l, c);
    SliceOfSuffix(s, |s| - |l|, |r|);
  }

  lemma SliceOfSuffix(s: string, i: nat, n: nat)
    requires i + n <= |s|
    ensures s[i..][..n] == s[i..i + n]
  {
  }

  lemma StripDropsTail(s: string, c: char)
    ensures var i := |s| - |StripLeft(s, c)|;
      forall k :: i + |Strip(s, c)| <= k < |s| ==> s[k] == c
  {
    var l := StripLeft(s, c);
    var r := StripRight(l, c);
    var i := |s| - |l|;
    forall k | i + |r| <= k < |s| ensures s[k] == c {
      assert s[k] == l[k - i];
    }
  }

  /** The input path after `strip('"')` and then `strip("'")`. */
  function StripQuotes(s: string): string
  {
    Strip(Strip(s, '"'), '\'')
  }

  /** A string that neither starts nor ends with `c` is left alone. */
  lemma StripUnquoted(s: string, c: char)
    requires |s| > 0 && s[0] != c && s[|s| - 1] != c
    ensures Strip(s, c) == s
  {
    assert StripLeft(s, c) == s;
  }

  /** One `c` at each end, and none just inside them: exactly those two go. */
  lemma StripQuotedOnce(s: string, c: char)
    requires |s| >= 3 && s[0] == c && s[|s| - 1] == c && s[1] != c && s[|s| - 2] != c
    ensures Strip(s, c) == s[1..|s| - 1]
  {
    var l := s[1..];
    assert StripLeft(l, c) == l;
    assert StripLeft(s, c) == l;
    assert l[..|l| - 1] == s[1..|s| - 1];
    assert StripRight(s[1..|s| - 1], c) == s[1..|s| - 1];
  }

  /** A path wrapped in double quotes loses them, whatever lies between. */
  lemma StripDoubleQuotes(p: string)
    requires |p| > 0 && p[0] !in "\"'" && p[|p| - 1] !in "\"'"
    ensures StripQuotes("\"" + p + "\"") == p
  {
    var s := "\"" + p + "\"";
    StripQuotedOnce(s, '"');
    assert s[1..|s| - 1] == p;
    StripUnquoted(p, '\'');
  }

  /**
   * The two strips run in a fixed order: a double-quoted path inside
   * single quotes keeps its double quotes.
   */
  lemma StripQuotesOrder(p: string)
    requires |p| > 0 && p[0] !in "\"'" && p[|p| - 1] !in "\"'"
    ensures StripQuotes("'" + ("\"" + p + "\"") + "'") == "\"" + p + "\""
  {
    var q := "\"" + p + "\"";
    var s := "'" + q + "'";
    assert s[0] == '\'' && s[|s| - 1] == '\'';
    assert s[1] == '"' && s[|s| - 2] == '"';
    assert s[1..|s| - 1] == q;
    StripUnquoted(s, '"');
    StripQuotedOnce(s, '\'');
  }

  // ---------------------------------------------------------------------------
  // Whitespace splitting (Python `str.split()` with no argument)
  // ---------------------------------------------------------------------------

  /** Python's `str.isspace` for one character. */
  predicate IsPySpace(c: char)
  {
    ('\U{0009}' <= c <= '\U{000D}') || ('\U{001C}' <= c <= '\U{0020}') || c == '\U{0085}' || c == '\U{00A0}'
    || c == '\U{1680}' || ('\U{2000}' <= c <= '\U{200A}') || c == '\U{2028}' || c == '\U{2029}'
    || c == '\U{202F}' || c == '\U{205F}' || c == '\U{3000}'
  }

  predicate NoSpace(s: string) { forall k :: 0 <= k < |s| ==> !IsPySpace(s[k]) }

  predicate AllSpace(s: string) { forall k :: 0 <= k < |s| ==> IsPySpace(s[k]) }

  /** The length of the leading run of non-space characters. */
  function RunLength(s: string): (n: nat)
    ensures n <= |s| && NoSpace(s[..n])
    ensures n < |s| ==> IsPySpace(s[n])
  {
    if s == [] || IsPySpace(s[0]) then 0 else 1 + RunLength(s[1..])
  }

  /** `s.split()`: the maximal runs of non-space characters, in order. */
  function Words(s: string): (ws: seq<string>)
    ensures forall i :: 0 <= i < |ws| ==> |ws[i]| > 0 && NoSpace(ws[i])
    decreases |s|
  {
    if s == [] then []
    else if IsPySpace(s[0]) then Words(s[1..])
    else
      var n := RunLength(s);
      [s[..n]] + Words(s[n..])
  }

  /** `s.split()[-1]`, or `None` where Python raises `IndexError`. */
  function LastWord(s: string): Option<string>
  {
    var ws := Words(s);
    if ws == [] then None else Some(ws[|ws| - 1])
  }

  lemma {:induction false} NoWordsMeansAllSpace(s: string)
    ensures Words(s) == [] <==> AllSpace(s)
    decreases |s|
  {
    if s != [] && IsPySpace(s[0]) {
      NoWordsMeansAllSpace(s[1..]);
      assert AllSpace(s) <==> AllSpace(s[1..]) by {
        assert forall k :: 0 < k < |s| ==> s[k] == s[1..][k - 1];
      }
    }
  }

  /** `w` occurs at `i`, is preceded by the start or a space, and only spaces follow it. */
  predicate IsLastWordAt(s: string, w: string, i: nat)
  {
    i + |w| <= |s| && s[i..i + |w|] == w
    && (i == 0 || IsPySpace(s[i - 1]))
    && AllSpace(s[i + |w|..])
  }

  /** A located last word stays located when a space is put in front. */
  lemma LastWordAfterSpace(s: string, w: string, i: nat)
    requires |s| > 0 && IsPySpace(s[0]) && IsLastWordAt(s[1..], w, i)
    ensures IsLastWordAt(s, w, i + 1)
  {
    assert s[i + 1..i + 1 + |w|] == s[1..][i..i + |w|];
    assert s[i + 1 + |w|..] == s[1..][i + |w|..];
    if i > 0 {
      assert s[i] == s[1..][i - 1];
    }
  }

  /** A located last word stays located when a word and the space after it are put in front. */
  lemma LastWordAfterWord(s: string, n: nat, w: string, i: nat)
    requires 0 < n < |s| && IsPySpace(s[n]) && IsLastWordAt(s[n..], w, i) && |w| > 0 && !IsPySpace(w[0])
    ensures IsLastWordAt(s, w, n + i)
  {
    var rest := s[n..];
    assert i > 0 by {
      assert rest[i..i + |w|][0] == rest[i];
      assert rest[i] == w[0];
      assert rest[0] == s[n];
    }
    assert s[n + i..n + i + |w|] == rest[i..i + |w|];
    assert s[n + i + |w|..] == rest[i + |w|..];
    assert s[n + i - 1] == rest[i - 1];
  }

  /** The last word is a whole word of `s`, followed only by whitespace. */
  lemma {:induction false} LastWordLocated(s: string)
    requires LastWord(s).Some?
    ensures exists i: nat :: IsLastWordAt(s, LastWord(s).value, i)
    decreases |s|
  {
    var w := LastWord(s).value;
    if IsPySpace(s[0]) {
      assert LastWord(s[1..]) == Some(w);
      LastWordLocated(s[1..]);
      var i: nat :| IsLastWordAt(s[1..], w, i);
      LastWordAfterSpace(s, w, i);
    } else {
      var n := RunLength(s);
      var rest := s[n..];
      assert Words(s) == [s[..n]] + Words(rest);
      if Words(rest) == [] {
        NoWordsMeansAllSpace(rest);
        assert w == s[..n];
        assert IsLastWordAt(s, w, 0);
      } else {
        assert LastWord(rest) == Some(w);
        LastWordLocated(rest);
        var i: nat :| IsLastWordAt(rest, w, i);
        assert |w| > 0 && NoSpace(w);
        LastWordAfterWord(s, n, w, i);
      }
    }
  }

  // ---------------------------------------------------------------------------
  // The progress token: Python `float(tok)` and the repr of the result
  // ---------------------------------------------------------------------------

  /** A decimal numeral `whole.frac` (either part may be empty, not both). */
  datatype Decimal = Decimal(whole: string, frac: string)

  predicate WellFormed(d: Decimal)
  {
    AllDigits(d.whole) && AllDigits(d.frac) && |d.whole| + |d.frac| > 0
  }

  /**
   * The tokens `float()` accepts in this model: digits with at most one
   * decimal point and at least one digit ("12", "12.5", "12.", ".5").
   */
  function ParseDecimal(tok: string): (r: Option<Decimal>)
    ensures r.Some? ==> WellFormed(r.value)
  {
    var parts := Split(tok, ".");
    if |parts| == 1 && |tok| > 0 && AllDigits(tok) then Some(Decimal(tok, ""))
    else if |parts| == 2 && WellFormed(Decimal(parts[0], parts[1])) then Some(Decimal(parts[0], parts[1]))
    else None
  }

  function Pow10(n: nat): (p: nat)
    ensures p >= 1
  {
    if n == 0 then 1 else 10 * Pow10(n - 1)
  }

  /** The number a well-formed numeral denotes. */
  function Value(d: Decimal): real
    requires WellFormed(d)
  {
    DigitsValue(d.whole) as real + DigitsValue(d.frac) as real / Pow10(|d.frac|) as real
  }

  /** The fraction digits without trailing zeros. */
  function TrimZeros(f: string): (r: string)
    ensures AllDigits(f) ==> AllDigits(r)
    ensures |r| <= |f| && r == f[..|r|]
    ensures r == [] || r[|r| - 1] != '0'
  {
    if f != [] && f[|f| - 1] == '0' then TrimZeros(f[..|f| - 1]) else f
  }

  /**
   * The positional form of Python's repr of the float: the integer part
   * without leading zeros, a point, and the fraction without trailing zeros
   * (at least one digit). The number is kept as an exact decimal.
   */
  function Render(d: Decimal): (s: string)
    requires WellFormed(d)
    ensures '.' in s
  {
    var t := TrimZeros(d.frac);
    NatToString(DigitsValue(d.whole)) + "." + (if t == [] then "0" else t)
  }

  /** Appending a zero digit to a fraction does not change its value. */
  lemma TrailingZeroKeepsValue(g: string)
    requires AllDigits(g)
    ensures AllDigits(g + "0")
    ensures DigitsValue(g + "0") as real / Pow10(|g + "0"|) as real == DigitsValue(g) as real / Pow10(|g|) as real
  {
    var f := g + "0";
    assert f[..|f| - 1] == g;
    assert DigitsValue(f) == DigitsValue(g) * 10;
    assert Pow10(|f|) == Pow10(|g|) * 10;
    ScaleCancel(DigitsValue(g) as real, Pow10(|g|) as real);
  }

  lemma ScaleCancel(a: real, b: real)
    requires b > 0.0
    ensures (a * 10.0) / (b * 10.0) == a / b
  {
  }

  lemma {:induction false} TrimZerosKeepsValue(f: string)
    requires AllDigits(f)
    ensures DigitsValue(f) as real / Pow10(|f|) as real
            == DigitsValue(TrimZeros(f)) as real / Pow10(|TrimZeros(f)|) as real
    decreases |f|
  {
    if f != [] && f[|f| - 1] == '0' {
      var g := f[..|f| - 1];
      assert f == g + "0";
      TrimZerosKeepsValue(g);
      TrailingZeroKeepsValue(g);
    }
  }

  lemma {:induction false} DigitsValueOfZero()
    ensures AllDigits("0") && DigitsValue("0") == 0
  {
    assert "0"[..0] == "";
  }

  lemma NoDotInDigits(s: string)
    requires AllDigits(s)
    ensures '.' !in s
  {
    forall k | 0 <= k < |s| ensures s[k] != '.' {
      assert IsDigit(s[k]);
    }
  }

  /** Two digit strings joined by a point parse back into exactly those two parts. */
  lemma ParseJoinedDecimal(w: string, f: string)
    requires AllDigits(w) && AllDigits(f) && |w| > 0 && |f| > 0
    ensures ParseDecimal(w + "." + f) == Some(Decimal(w, f))
  {
    NoDotInDigits(w);
    NoDotInDigits(f);
    assert Join([w, f], ".") == w + "." + f;
    SplitJoin([w, f], ".");
  }

  /** The parts `Render` writes denote the same number as the parts it was given. */
  lemma RenderedPartsKeepValue(d: Decimal)
    requires WellFormed(d)
    ensures var t := TrimZeros(d.frac);
      var e := Decimal(NatToString(DigitsValue(d.whole)), if t == [] then "0" else t);
      WellFormed(e) && Value(e) == Value(d)
  {
    var t := TrimZeros(d.frac);
    DigitsValueOfZero();
    DigitsValueOfNatToString(DigitsValue(d.whole));
    TrimZerosKeepsValue(d.frac);
    if t == [] {
      assert DigitsValue(t) == 0;
    }
  }

  /**
   * The rendered number reads back as the same number: rendering is a
   * faithful repr of the parsed value.
   */
  lemma RenderRoundTrip(d: Decimal)
    requires WellFormed(d)
    ensures ParseDecimal(Render(d)).Some?
    ensures Value(ParseDecimal(Render(d)).value) == Value(d)
  {
    var t := TrimZeros(d.frac);
    var w := NatToString(DigitsValue(d.whole));
    var f := if t == [] then "0" else t;
    DigitsValueOfZero();
    ParseJoinedDecimal(w, f);
    RenderedPartsKeepValue(d);
  }

  /** What the progress callback receives for one parsed line. */
  datatype ProgressEvent = ProgressEvent(progress: real, raw: string)

  /**
   * The progress event a stderr line produces, if any: only lines containing
   * `%`, and only when the last word before the first `%` is a number.
   */
  function ParseProgressLine(line: string): (r: Option<ProgressEvent>)
  {
    if '%' !in line then None
    else
      match LastWord(Split(line, "%")[0])
      case None => None
      case Some(tok) =>
        match ParseDecimal(tok)
        case None => None
        case Some(d) => Some(ProgressEvent(Value(d), "Separating Stems: " + Render(d) + "%"))
  }

  /**
   * The leading run ends at the first space: a length with no space before
   * it and a space (or the end) at it is the run's length.
   */
  lemma RunLengthAt(s: string, m: nat)
    requires m <= |s| && NoSpace(s[..m]) && (m == |s| || IsPySpace(s[m]))
    ensures RunLength(s) == m
  {
    var n := RunLength(s);
    assert forall j :: 0 <= j < m ==> !IsPySpace(s[j]) by {
      forall j | 0 <= j < m ensures !IsPySpace(s[j]) {
        assert s[..m][j] == s[j];
      }
    }
    assert forall j :: 0 <= j < n ==> !IsPySpace(s[j]) by {
      forall j | 0 <= j < n ensures !IsPySpace(s[j]) {
        assert s[..n][j] == s[j];
      }
    }
  }

  /** Text cut just after a space splits into the words of each part. */
  lemma {:induction false} WordsAppend(a: string, b: string)
    requires a == [] || IsPySpace(a[|a| - 1])
    ensures Words(a + b) == Words(a) + Words(b)
    decreases |a|
  {
    if a == [] {
      assert a + b == b;
    } else if IsPySpace(a[0]) {
      assert (a + b)[0] == a[0] && (a + b)[1..] == a[1..] + b;
      WordsAppend(a[1..], b);
    } else {
      var n := RunLength(a);
      assert n < |a|;
      assert (a + b)[..n] == a[..n] && (a + b)[n] == a[n];
      RunLengthAt(a + b, n);
      assert (a + b)[0] == a[0] && (a + b)[n..] == a[n..] + b;
      WordsAppend(a[n..], b);
    }
  }

  /** A word followed by nothing but whitespace is the only word. */
  lemma WordsOfWord(w: string, t: string)
    requires |w| > 0 && NoSpace(w) && AllSpace(t)
    ensures Words(w + t) == [w]
  {
    assert (w + t)[..|w|] == w && (w + t)[|w|..] == t && (w + t)[0] == w[0];
    if t != [] {
      assert (w + t)[|w|] == t[0];
    }
    RunLengthAt(w + t, |w|);
    NoWordsMeansAllSpace(t);
  }

  /** A word located as the last one is the one `split()[-1]` returns. */
  lemma LastWordUnique(s: string, w: string, i: nat)
    requires IsLastWordAt(s, w, i) && |w| > 0 && NoSpace(w)
    ensures LastWord(s) == Some(w)
  {
    var tail := s[i + |w|..];
    assert s == s[..i] + (w + tail);
    WordsAppend(s[..i], w + tail);
    WordsOfWord(w, tail);
  }

  /** `line.split('%')[0]` is the text before the first `%`. */
  lemma FirstPercentPiece(line: string, k: nat)
    requires k < |line| && line[k] == '%' && '%' !in line[..k]
    ensures '%' in line && Split(line, "%")[0] == line[..k]
  {
    assert "%" == ['%'];
    SplitFirstPiece(line, '%');
  }

  /**
   * Where `k` is the first `%` of the line and `w` the last word of the
   * text before it, the line yields an event exactly when `w` is a numeral,
   * and the event carries that numeral's value and its rendering.
   */
  lemma ParseProgressLineSpec(line: string, k: nat, w: string, i: nat)
    requires k < |line| && line[k] == '%' && '%' !in line[..k]
    requires IsLastWordAt(line[..k], w, i) && |w| > 0 && NoSpace(w)
    ensures ParseProgressLine(line).Some? <==> ParseDecimal(w).Some?
    ensures ParseDecimal(w).Some? ==>
              && ParseProgressLine(line).value.progress == Value(ParseDecimal(w).value)
              && ParseProgressLine(line).value.raw == "Separating Stems: " + Render(ParseDecimal(w).value) + "%"
  {
    FirstPercentPiece(line, k);
    LastWordUnique(line[..k], w, i);
  }

  /** A line without `%`, or with only whitespace before its first `%`, yields no event. */
  lemma NoTokenNoEvent(line: string)
    ensures '%' !in line ==> ParseProgressLine(line).None?
    ensures forall k :: 0 <= k < |line| && line[k] == '%' && '%' !in line[..k] && AllSpace(line[..k]) ==>
              ParseProgressLine(line).None?
  {
    forall k | 0 <= k < |line| && line[k] == '%' && '%' !in line[..k] && AllSpace(line[..k])
      ensures ParseProgressLine(line).None?
    {
      FirstPercentPiece(line, k);
      NoWordsMeansAllSpace(line[..k]);
    }
  }

  /** The token is taken before the first `%`: it is a whole word of that prefix. */
  lemma TokenPrecedesFirstPercent(line: string)
    requires '%' in line && LastWord(Split(line, "%")[0]).Some?
    ensures var pre := Split(line, "%")[0];
      && StartsWith(line, pre) && '%' !in pre && |pre| < |line| && line[|pre|] == '%'
      && exists i: nat :: IsLastWordAt(pre, LastWord(pre).value, i)
  {
    SplitFirstPiece(line, '%');
    var pre := Split(line, "%")[0];
    assert "%" == ['%'];
    var k :| 0 <= k < |line| && line[k] == '%';
    assert forall j :: 0 <= j < |pre| ==> line[j] == pre[j];
    assert k >= |pre|;
    LastWordLocated(pre);
  }

  lemma WordsOfTwelve()
    ensures Words("  12") == ["12"]
  {
    assert RunLength("2") == 1 by {
      assert "2"[1..] == "";
    }
    assert RunLength("12") == 2 by {
      assert "12"[1..] == "2";
    }
    assert "12"[..2] == "12" && "12"[2..] == "";
    assert "  12"[1..] == " 12";
    assert " 12"[1..] == "12";
  }

  lemma ParseTwelve()
    ensures ParseDecimal("12") == Some(Decimal("12", ""))
    ensures Value(Decimal("12", "")) == 12.0
    ensures Render(Decimal("12", "")) == "12.0"
  {
    SplitPrefix("12", ".", "", false);
    assert DigitsValue("12") == 12 by {
      assert "12"[..1] == "1";
      assert "1"[..0] == "";
    }
    assert NatToString(12) == "12" by {
      assert NatToString(1) == "1";
    }
  }

  lemma TwelvePrefix(tail: string)
    ensures '%' in "  12%" + tail
    ensures Split("  12%" + tail, "%")[0] == "  12"
  {
    var line := "  12" + "%" + tail;
    assert "  12%" + tail == line;
    assert line[4] == '%';
    SplitPrefix("  12", "%", tail, true);
  }

  lemma EventOfToken(line: string, tok: string, d: Decimal)
    requires '%' in line && LastWord(Split(line, "%")[0]) == Some(tok) && ParseDecimal(tok) == Some(d)
    ensures ParseProgressLine(line) == Some(ProgressEvent(Value(d), "Separating Stems: " + Render(d) + "%"))
  {
  }

  /**
   * A tqdm line from the tool, such as `  12%|## | 12/100`, reports its
   * leading percentage whatever follows the first `%`.
   */
  lemma TqdmLineExample(tail: string)
    ensures ParseProgressLine("  12%" + tail) == Some(ProgressEvent(12.0, "Separating Stems: 12.0%"))
  {
    TwelvePrefix(tail);
    WordsOfTwelve();
    ParseTwelve();
    EventOfToken("  12%" + tail, "12", Decimal("12", ""));
    assert "Separating Stems: " + "12.0" + "%" == "Separating Stems: 12.0%";
  }

  /** The events a whole stderr stream produces, in line order. */
  function EventsOf(lines: seq<string>): (r: seq<ProgressEvent>)
    ensures |r| <= |lines|
  {
    if lines == [] then []
    else
      var init := EventsOf(lines[..|lines| - 1]);
      match ParseProgressLine(lines[|lines| - 1])
      case Some(e) => init + [e]
      case None => init
  }

  /** The number of lines that yield an event. */
  function CountParsed(lines: seq<string>): nat
  {
    if lines == [] then 0
    else CountParsed(lines[..|lines| - 1]) + (if ParseProgressLine(lines[|lines| - 1]).Some? then 1 else 0)
  }

  /**
   * Exactly one event per parseable line, and an unparseable line
   * contributes nothing: events of a concatenation are the concatenation of
   * the events.
   */
  lemma {:induction false} EventsOfAppend(a: seq<string>, b: seq<string>)
    ensures EventsOf(a + b) == EventsOf(a) + EventsOf(b)
    ensures |EventsOf(a)| == CountParsed(a)
    decreases |b|
  {
    if b == [] {
      assert a + b == a;
      EventsCount(a);
    } else {
      var b' := b[..|b| - 1];
      assert (a + b)[..|a + b| - 1] == a + b';
      assert (a + b)[|a + b| - 1] == b[|b| - 1];
      EventsOfAppend(a, b');
    }
  }

  lemma {:induction false} EventsCount(a: seq<string>)
    ensures |EventsOf(a)| == CountParsed(a)
    decreases |a|
  {
    if a != [] {
      EventsCount(a[..|a| - 1]);
    }
  }

  // ---------------------------------------------------------------------------
  // Paths (pathlib on resolved POSIX paths)
  // ---------------------------------------------------------------------------

  /** `Path(p).parent` for a path without a trailing separator. */
  function Parent(p: string): string
  {
    match LastIndexOf(p, '/')
    case None => "."
    case Some(i) => if i == 0 then "/" else p[..i]
  }

  /** `Path(p).name`: the last component. */
  function Name(p: string): (r: string)
    ensures '/' !in r
    ensures EndsWith(p, r) && (|r| < |p| ==> p[|p| - |r| - 1] == '/')
  {
    match LastIndexOf(p, '/')
    case None => p
    case Some(i) => p[i + 1..]
  }

  /** `Path(name).stem`: drops the last suffix when its dot is neither first nor last. */
  function PathStem(name: string): (r: string)
    ensures |r| <= |name| && r == name[..|r|]
    ensures r == name || (0 < |r| < |name| - 1 && name[|r|] == '.' && '.' !in name[|r| + 1..])
    ensures r == name <==> forall j :: 0 < j < |name| - 1 && name[j] == '.' ==> '.' in name[j + 1..]
  {
    match LastIndexOf(name, '.')
    case None => name
    case Some(i) => if 0 < i < |name| - 1 then name[..i] else name
  }

  /** `a / b` for a relative single component `b`. */
  function JoinPath(a: string, b: string): string
  {
    if |a| > 0 && a[|a| - 1] == '/' then a + b else a + "/" + b
  }

  /** A file's stem drops its extension. */
  lemma StemOfPlainName()
    ensures PathStem("vocals.wav") == "vocals"
  {
    assert LastIndexOf("vocals.wav", '.') == Some(6) by {
      assert "vocals.wav"[7..] == "wav";
    }
  }

  /** A name whose only dot is its first character has no suffix to drop. */
  lemma StemOfDotFile()
    ensures PathStem(".wav") == ".wav"
  {
    assert LastIndexOf(".wav", '.') == Some(0) by {
      assert ".wav"[1..] == "wav";
    }
  }

  /** Only the last suffix goes. */
  lemma StemOfTwoDots()
    ensures PathStem("a.b.wav") == "a.b"
  {
    assert LastIndexOf("a.b.wav", '.') == Some(3) by {
      assert "a.b.wav"[4..] == "wav";
    }
  }

  // ---------------------------------------------------------------------------
  // The command line
  // ---------------------------------------------------------------------------

  /** The `--out` directory: `separated` beside the input's parent directory. */
  function SeparatedDir(path: string): string
  {
    JoinPath(Parent(Parent(path)), "separated")
  }

  /** The Demucs invocation common to every stem count: model, device, chunking, then the input last. */
  function BaseCommand(executable: string, path: string, device: Device): (cmd: seq<string>)
    ensures |cmd| == 14 && cmd[0] == executable && cmd[13] == path
    ensures cmd[3] == "--out" && cmd[4] == SeparatedDir(path)
    ensures cmd[7] == "--device" && cmd[8] == DeviceName(device)
    ensures cmd[1] == "-m" && cmd[2] == "demucs" && cmd[5] == "-n" && cmd[6] == "htdemucs"
    ensures cmd[9] == "--segment" && cmd[10] == "10" && cmd[11] == "--shifts" && cmd[12] == "1"
  {
    [executable, "-m", "demucs", "--out", SeparatedDir(path), "-n", ModelName,
     "--device", DeviceName(device), "--segment", "10", "--shifts", "1", path]
  }

  /** The Demucs invocation for a resolved input path; two stems add the vocals split. */
  function BuildCommand(executable: string, path: string, device: Device, stems: int): (cmd: seq<string>)
    ensures |cmd| == if stems == 2 then 16 else 14
    ensures cmd[..14] == BaseCommand(executable, path, device)
    ensures stems == 2 ==> cmd[14] == "--two-stems" && cmd[15] == "vocals"
  {
    var base := BaseCommand(executable, path, device);
    if stems == 2 then base + ["--two-stems", "vocals"] else base
  }

  // ---------------------------------------------------------------------------
  // Results and the stems map
  // ---------------------------------------------------------------------------

  datatype Outcome = Complete(stems: map<string, string>) | Error(message: string)

  predicate IsWav(name: string) { EndsWith(name, ".wav") }

  /** The public path of an output file, relative to the input's grandparent, with `/` separators. */
  function StemPath(track: string, name: string): string
  {
    ReplaceChar("separated/" + ModelName + "/" + track + "/" + name, '\\', '/')
  }

  /** The stems map built from the output directory's listing, later entries overriding earlier ones. */
  function StemsOf(track: string, names: seq<string>): map<string, string>
  {
    if names == [] then map[]
    else
      var m := StemsOf(track, names[..|names| - 1]);
      var n := names[|names| - 1];
      if IsWav(n) then m[PathStem(n) := StemPath(track, n)] else m
  }

  /** Exactly the `.wav` entries have a key, under their stem. */
  lemma {:induction false} StemsOfKeys(track: string, names: seq<string>)
    ensures forall k :: k in StemsOf(track, names) <==>
              exists i :: 0 <= i < |names| && IsWav(names[i]) && PathStem(names[i]) == k
    decreases |names|
  {
    if names != [] {
      var init := names[..|names| - 1];
      StemsOfKeys(track, init);
      forall k ensures k in StemsOf(track, names) <==>
                       exists i :: 0 <= i < |names| && IsWav(names[i]) && PathStem(names[i]) == k
      {
        if exists i :: 0 <= i < |names| && IsWav(names[i]) && PathStem(names[i]) == k {
          var i :| 0 <= i < |names| && IsWav(names[i]) && PathStem(names[i]) == k;
          if i < |names| - 1 {
            assert init[i] == names[i];
          }
        }
        if k in StemsOf(track, init) {
          var i :| 0 <= i < |init| && IsWav(init[i]) && PathStem(init[i]) == k;
          assert names[i] == init[i];
        }
      }
    }
  }

  /** `names[i]` is the last `.wav` entry whose stem is `k`. */
  predicate IsLastWithStem(names: seq<string>, k: string, i: int)
  {
    0 <= i < |names| && IsWav(names[i]) && PathStem(names[i]) == k
    && forall j :: i < j < |names| && IsWav(names[j]) ==> PathStem(names[j]) != k
  }

  /** Each key maps to the path of the last `.wav` entry with that stem. */
  lemma {:induction false} StemsOfValues(track: string, names: seq<string>)
    ensures forall k :: k in StemsOf(track, names) ==>
              exists i :: IsLastWithStem(names, k, i) && StemsOf(track, names)[k] == StemPath(track, names[i])
    decreases |names|
  {
    if names != [] {
      var init := names[..|names| - 1];
      StemsOfValues(track, init);
      var n := names[|names| - 1];
      var m := StemsOf(track, names);
      forall k | k in m
        ensures exists i :: IsLastWithStem(names, k, i) && m[k] == StemPath(track, names[i])
      {
        if IsWav(n) && k == PathStem(n) {
          assert IsLastWithStem(names, k, |names| - 1);
        } else {
          assert k in StemsOf(track, init) && m[k] == StemsOf(track, init)[k];
          var i :| IsLastWithStem(init, k, i) && StemsOf(track, init)[k] == StemPath(track, init[i]);
          LastWithStemExtends(names, k, i);
        }
      }
    }
  }

  /** An entry that is last with its stem stays last when an entry with another stem (or no `.wav`) follows. */
  lemma LastWithStemExtends(names: seq<string>, k: string, i: int)
    requires |names| > 0 && IsLastWithStem(names[..|names| - 1], k, i)
    requires !(IsWav(names[|names| - 1]) && PathStem(names[|names| - 1]) == k)
    ensures IsLastWithStem(names, k, i) && names[i] == names[..|names| - 1][i]
  {
    var init := names[..|names| - 1];
    assert names[i] == init[i];
    forall j | i < j < |names| && IsWav(names[j]) ensures PathStem(names[j]) != k {
      if j < |names| - 1 {
        assert names[j] == init[j];
      }
    }
  }

  lemma NoBackslashInStemPath(track: string, name: string)
    ensures '\\' !in StemPath(track, name)
  {
    var v := StemPath(track, name);
    forall p | 0 <= p < |v| ensures v[p] != '\\' {
    }
  }

  /** No value of the stems map holds a backslash. */
  lemma {:induction false} StemsOfSeparators(track: string, names: seq<string>)
    ensures forall k :: k in StemsOf(track, names) ==> '\\' !in StemsOf(track, names)[k]
    decreases |names|
  {
    if names != [] {
      var init := names[..|names| - 1];
      StemsOfSeparators(track, init);
      var n := names[|names| - 1];
      var m := StemsOf(track, names);
      forall k | k in m ensures '\\' !in m[k] {
        if IsWav(n) && k == PathStem(n) {
          NoBackslashInStemPath(track, n);
        } else {
          assert m[k] == StemsOf(track, init)[k];
        }
      }
    }
  }

  // ---------------------------------------------------------------------------
  // `process`
  // ---------------------------------------------------------------------------

  /** The parts of the outside world `process` observes. */
  datatype Environment = Environment(
    resolve: string -> string,            // Path(p).resolve()
    existsAt: string -> bool,              // Path(p).exists()
    listingRepr: string -> string,        // repr of os.listdir(p)
    executable: string,                   // sys.executable
    launchError: Option<string>,          // what creating the output directory or starting the tool raised
    stderrLines: seq<string>,             // successive readline() results before end of stream
    returnCode: int,                      // the tool's exit status
    outputListing: Option<seq<string>>)   // entry names of the model output directory, None if it is absent

  function NotFoundMessage(path: string, env: Environment): string
  {
    var parent := Parent(path);
    "Input file not found at: " + path + ". Directory " + parent + " contains: "
      + (if env.existsAt(parent) then env.listingRepr(parent) else "DIR_MISSING")
  }

  function FailureMessage(code: int): (s: string)
    ensures StartsWith(s, "Demucs failed with code ")
  {
    "Demucs failed with code " + IntToString(code)
  }

  /** The exit status can be read back from the failure message. */
  lemma FailureMessageNamesCode(code: int)
    ensures ParseInt(FailureMessage(code)[|"Demucs failed with code "|..]) == Some(code)
  {
    assert FailureMessage(code)[|"Demucs failed with code "|..] == IntToString(code);
    IntToStringRoundTrip(code);
  }

  /** The read loop of `process`: one callback per parseable stderr line, in order. */
  method ReadProgress(lines: seq<string>, hasCallback: bool) returns (events: seq<ProgressEvent>)
    ensures events == if hasCallback then EventsOf(lines) else []
  {
    events := [];
    var i := 0;
    while i < |lines|
      invariant 0 <= i <= |lines|
      invariant events == if hasCallback then EventsOf(lines[..i]) else []
    {
      var output := lines[i];
      assert lines[..i + 1][..i] == lines[..i];
      if output != "" && '%' in output {
        var parsed := ParseProgressLine(output);
        if parsed.Some? && hasCallback {
          events := events + [parsed.value];
        }
      }
      i := i + 1;
    }
    assert lines[..i] == lines;
  }

  /** The loop over the `*.wav` entries of the model output directory. */
  method CollectStems(track: string, names: seq<string>) returns (stems: map<string, string>)
    ensures stems == StemsOf(track, names)
  {
    stems := map[];
    var j := 0;
    while j < |names|
      invariant 0 <= j <= |names|
      invariant stems == StemsOf(track, names[..j])
    {
      assert names[..j + 1][..j] == names[..j];
      if IsWav(names[j]) {
        stems := stems[PathStem(names[j]) := StemPath(track, names[j])];
      }
      j := j + 1;
    }
    assert names[..j] == names;
  }

  /**
   * `AudioProcessor.process`. Returns the outcome, the progress events
   * delivered to the callback (none without a callback) and the command
   * line that was launched, if any.
   */
  method Process(p: AudioProcessor, inputFile: string, hasCallback: bool, env: Environment)
    returns (result: Outcome, events: seq<ProgressEvent>, launched: Option<seq<string>>)
    ensures var path := env.resolve(StripQuotes(inputFile));
      && (!env.existsAt(path) ==> result == Error(NotFoundMessage(path, env)) && events == [] && launched.None?)
      && (env.existsAt(path) ==> launched == Some(BuildCommand(env.executable, path, p.device, p.stems)))
      && (env.existsAt(path) && env.launchError.Some? ==>
            result == Error("Processor error: " + env.launchError.value) && events == [])
      && (env.existsAt(path) && env.launchError.None? ==>
            && events == (if hasCallback then EventsOf(env.stderrLines) else [])
            && (env.returnCode == 0 ==>
                  result == Complete(if env.outputListing.Some?
                                     then StemsOf(PathStem(Name(path)), env.outputListing.value)
                                     else map[]))
            && (env.returnCode != 0 ==> result == Error(FailureMessage(env.returnCode))))
  {
    var inputPath := env.resolve(StripQuotes(inputFile));
    events := [];
    launched := None;
    if !env.existsAt(inputPath) {
      result := Error(NotFoundMessage(inputPath, env));
      return;
    }
    var cmd := BuildCommand(env.executable, inputPath, p.device, p.stems);
    launched := Some(cmd);
    if env.launchError.Some? {
      result := Error("Processor error: " + env.launchError.value);
      return;
    }

    events := ReadProgress(env.stderrLines, hasCallback);
    if env.returnCode == 0 {
      var stems: map<string, string> := map[];
      if env.outputListing.Some? {
        stems := CollectStems(PathStem(Name(inputPath)), env.outputListing.value);
      }
      result := Complete(stems);
    } else {
      result := Error(FailureMessage(env.returnCode));
    }
  }
}
