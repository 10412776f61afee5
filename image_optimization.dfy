/**
 * Responsive image attributes (src/lib/image-optimization.ts): a `srcset`
 * with one candidate per width and a `sizes` list with one media condition
 * per breakpoint, each joined with ", ".
 */
module ImageOptimization {
  import opened Strings

  const ListSeparator: string := ", "

  /** One `srcset` candidate: `${src}?w=${width} ${width}w`. */
  function SrcSetEntry(src: string, width: int): string
  {
    src + "?w=" + IntToString(width) + " " + IntToString(width) + "w"
  }

  function SrcSetEntries(src: string, widths: seq<int>): (r: seq<string>)
    ensures |r| == |widths| && forall i :: 0 <= i < |widths| ==> r[i] == SrcSetEntry(src, widths[i])
  {
    seq(|widths|, i requires 0 <= i < |widths| => SrcSetEntry(src, widths[i]))
  }

  /** `generateSrcSet`: the candidates, in the order of the widths. */
  function GenerateSrcSet(src: string, widths: seq<int>): (r: string)
    ensures r == "" <==> widths == []
    ensures |widths| == 1 ==> r == SrcSetEntry(src, widths[0])
  {
    Join(SrcSetEntries(src, widths), ListSeparator)
  }

  /** One `sizes` entry: `(max-width: ${breakpoint}) ${size}`. */
  function SizesEntry(breakpoint: string, size: string): string
  {
    "(max-width: " + breakpoint + ") " + size
  }

  function SizesEntries(breakpoints: seq<(string, string)>): (r: seq<string>)
    ensures |r| == |breakpoints|
    ensures forall i :: 0 <= i < |breakpoints| ==> r[i] == SizesEntry(breakpoints[i].0, breakpoints[i].1)
  {
    seq(|breakpoints|, i requires 0 <= i < |breakpoints| => SizesEntry(breakpoints[i].0, breakpoints[i].1))
  }

  /** `generateSizes` over the breakpoints' entries, in entry order. */
  function GenerateSizes(breakpoints: seq<(string, string)>): (r: string)
    ensures r == "" <==> breakpoints == []
    ensures |breakpoints| == 1 ==> r == SizesEntry(breakpoints[0].0, breakpoints[0].1)
  {
    Join(SizesEntries(breakpoints), ListSeparator)
  }

  /** A rendered number holds digits and perhaps a minus sign, never a comma. */
  lemma NoCommaInNumber(i: int)
    ensures ',' !in IntToString(i)
  {
    if i < 0 {
      var d := NatToString(-i);
      assert IntToString(i) == "-" + d;
      assert forall k :: 0 <= k < |d| ==> d[k] != ',';
    } else {
      assert forall k :: 0 <= k < |IntToString(i)| ==> IntToString(i)[k] != ',';
    }
  }

  /** A comma-free URL gives comma-free candidates. */
  lemma SrcSetEntryHasNoComma(src: string, width: int)
    requires ',' !in src
    ensures ',' !in SrcSetEntry(src, width)
  {
    NoCommaInNumber(width);
  }

  /** For a URL without commas, splitting the `srcset` at ", " gives back one candidate per width, in order. */
  lemma SrcSetSplitsIntoCandidates(src: string, widths: seq<int>)
    requires ',' !in src && widths != []
    ensures Split(GenerateSrcSet(src, widths), ListSeparator) == SrcSetEntries(src, widths)
    ensures |Split(GenerateSrcSet(src, widths), ListSeparator)| == |widths|
  {
    var parts := SrcSetEntries(src, widths);
    forall i | 0 <= i < |parts|
      ensures ListSeparator[0] !in parts[i]
    {
      SrcSetEntryHasNoComma(src, widths[i]);
    }
    SplitJoin(parts, ListSeparator);
  }

  /** For comma-free breakpoints and sizes, splitting the `sizes` list at ", " gives back one entry per breakpoint, in order. */
  lemma SizesSplitIntoEntries(breakpoints: seq<(string, string)>)
    requires breakpoints != []
    requires forall i :: 0 <= i < |breakpoints| ==> ',' !in breakpoints[i].0 && ',' !in breakpoints[i].1
    ensures Split(GenerateSizes(breakpoints), ListSeparator) == SizesEntries(breakpoints)
    ensures |Split(GenerateSizes(breakpoints), ListSeparator)| == |breakpoints|
  {
    var parts := SizesEntries(breakpoints);
    forall i | 0 <= i < |parts|
      ensures ListSeparator[0] !in parts[i]
    {
      assert parts[i] == "(max-width: " + breakpoints[i].0 + ") " + breakpoints[i].1;
    }
    SplitJoin(parts, ListSeparator);
  }
}
