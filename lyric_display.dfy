/**
 * Time-synced lyrics (frontend/src/components/audio/LyricDisplay.tsx): the
 * active line is the first whose half-open interval [start, end) holds the
 * playback time, the active word is found the same way inside the active
 * line, and clicking a line asks the player to seek to its start.
 */
module LyricDisplay {
  import opened Wrappers

  /** A half-open time interval in seconds. */
  datatype Span = Span(startTime: real, endTime: real)

  datatype Word = Word(text: string, startTime: real, endTime: real) {
    function Interval(): Span { Span(startTime, endTime) }
  }

  datatype LyricLine = LyricLine(startTime: real, endTime: real, text: string,
                                 translation: Option<string>, words: Option<seq<Word>>) {
    function Interval(): Span { Span(startTime, endTime) }
  }

  /** `currentTime >= startTime && currentTime < endTime`. */
  predicate Covers(span: Span, t: real)
  {
    span.startTime <= t < span.endTime
  }

  /** `findIndex` with the covering test: the first covering span, or -1 when none covers. */
  function FirstCovering(spans: seq<Span>, t: real): (r: int)
    ensures -1 <= r < |spans|
    ensures r >= 0 ==> Covers(spans[r], t) && forall j :: 0 <= j < r ==> !Covers(spans[j], t)
    ensures r == -1 <==> forall j :: 0 <= j < |spans| ==> !Covers(spans[j], t)
  {
    if spans == [] then -1
    else if Covers(spans[0], t) then 0
    else
      var k := FirstCovering(spans[1..], t);
      assert forall j :: 1 <= j < |spans| ==> spans[j] == spans[1..][j - 1];
      if k == -1 then -1 else k + 1
  }

  function LineSpans(lyrics: seq<LyricLine>): (r: seq<Span>)
    ensures |r| == |lyrics| && forall i :: 0 <= i < |lyrics| ==> r[i] == lyrics[i].Interval()
  {
    seq(|lyrics|, i requires 0 <= i < |lyrics| => lyrics[i].Interval())
  }

  function WordSpans(words: seq<Word>): (r: seq<Span>)
    ensures |r| == |words| && forall i :: 0 <= i < |words| ==> r[i] == words[i].Interval()
  {
    seq(|words|, i requires 0 <= i < |words| => words[i].Interval())
  }

  /** The effect computing `activeLineIndex`. */
  function ActiveLineIndex(lyrics: seq<LyricLine>, t: real): (r: int)
    ensures -1 <= r < |lyrics|
    ensures r >= 0 ==> lyrics[r].startTime <= t < lyrics[r].endTime
    ensures r >= 0 ==> forall j :: 0 <= j < r ==> !(lyrics[j].startTime <= t < lyrics[j].endTime)
    ensures r == -1 <==> forall j :: 0 <= j < |lyrics| ==> !(lyrics[j].startTime <= t < lyrics[j].endTime)
  {
    var r := FirstCovering(LineSpans(lyrics), t);
    assert forall j :: 0 <= j < |lyrics| ==> LineSpans(lyrics)[j] == lyrics[j].Interval();
    r
  }

  /** `getActiveWordIndex`: -1 for a line without word timings, else the first covering word or -1. */
  function ActiveWordIndex(line: LyricLine, t: real): (r: int)
    ensures line.words.None? ==> r == -1
    ensures line.words.Some? ==> -1 <= r < |line.words.value|
    ensures line.words.Some? && r >= 0 ==> line.words.value[r].startTime <= t < line.words.value[r].endTime
    ensures line.words.Some? && r >= 0 ==>
              forall j :: 0 <= j < r ==> !(line.words.value[j].startTime <= t < line.words.value[j].endTime)
    ensures line.words.Some? ==>
              (r == -1 <==> forall j :: 0 <= j < |line.words.value| ==>
                              !(line.words.value[j].startTime <= t < line.words.value[j].endTime))
  {
    match line.words
    case None => -1
    case Some(words) =>
      var r := FirstCovering(WordSpans(words), t);
      assert forall j :: 0 <= j < |words| ==> WordSpans(words)[j] == words[j].Interval();
      r
  }

  /** The word index each rendered line gets: only the active line looks for a word. */
  function RenderedWordIndex(lyrics: seq<LyricLine>, t: real, index: nat): (r: int)
    requires index < |lyrics|
    ensures index != ActiveLineIndex(lyrics, t) ==> r == -1
    ensures index == ActiveLineIndex(lyrics, t) ==> r == ActiveWordIndex(lyrics[index], t)
  {
    if index == ActiveLineIndex(lyrics, t) then ActiveWordIndex(lyrics[index], t) else -1
  }

  /** `handleLineClick`: the time handed to `onLineClick`, when the callback is given. */
  function LineClick(line: LyricLine, hasHandler: bool): (seekTo: Option<real>)
    ensures seekTo.Some? <==> hasHandler
    ensures seekTo.Some? ==> seekTo.value == line.startTime
    ensures seekTo.Some? ==> Covers(line.Interval(), seekTo.value) || line.endTime <= line.startTime
  {
    if hasHandler then Some(line.startTime) else None
  }

  /** Lines in time order without overlap. */
  predicate Ordered(lyrics: seq<LyricLine>)
  {
    forall j, k :: 0 <= j < k < |lyrics| ==> lyrics[j].endTime <= lyrics[k].startTime
  }

  /** In ordered lyrics, seeking to a non-empty line's start makes exactly that line active. */
  lemma ClickActivatesLine(lyrics: seq<LyricLine>, k: nat)
    requires Ordered(lyrics) && k < |lyrics| && lyrics[k].startTime < lyrics[k].endTime
    ensures ActiveLineIndex(lyrics, LineClick(lyrics[k], true).value) == k
  {
    var t := lyrics[k].startTime;
    assert forall j :: 0 <= j < k ==> lyrics[j].endTime <= t;
  }

  /** At a boundary two ordered lines share, the interval is half-open: the later line is active. */
  lemma SharedBoundaryGoesToLaterLine(lyrics: seq<LyricLine>, i: nat)
    requires Ordered(lyrics) && i + 1 < |lyrics|
    requires lyrics[i].endTime == lyrics[i + 1].startTime < lyrics[i + 1].endTime
    ensures ActiveLineIndex(lyrics, lyrics[i].endTime) == i + 1
  {
    ClickActivatesLine(lyrics, i + 1);
  }

  /** The first two lines of the sample lyrics; the first has word timings. */
  const SampleLyrics: seq<LyricLine> := [
    LyricLine(0.0, 3.5, "Welcome to the AI Music Platform", Some("Bienvenue sur la plateforme musicale IA"),
              Some([Word("Welcome", 0.0, 0.5), Word("to", 0.5, 0.7), Word("the", 0.7, 0.9),
                    Word("AI", 0.9, 1.3), Word("Music", 1.3, 2.0), Word("Platform", 2.0, 3.5)])),
    LyricLine(3.5, 7.0, "Experience professional-grade stem separation",
              Some("Découvrez la séparation de stems de qualité professionnelle"), None)
  ]

  /** On the sample: at 3.5 s the second line is active; at 1 s the first line and its word "AI" are. */
  lemma SampleLyricsTimeline()
    ensures ActiveLineIndex(SampleLyrics, 3.5) == 1
    ensures RenderedWordIndex(SampleLyrics, 3.5, 0) == -1
    ensures ActiveLineIndex(SampleLyrics, 1.0) == 0
    ensures RenderedWordIndex(SampleLyrics, 1.0, 0) == 3
  {
    SharedBoundaryGoesToLaterLine(SampleLyrics, 0);
    var words := SampleLyrics[0].words.value;
    assert Covers(words[3].Interval(), 1.0);
    assert forall j :: 0 <= j < 3 ==> !Covers(words[j].Interval(), 1.0);
    assert ActiveWordIndex(SampleLyrics[0], 1.0) == 3;
  }
}
