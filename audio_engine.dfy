/**
 * The playback engine (frontend/src/lib/audio-engine.ts): one decoded buffer,
 * played through a fresh source node on every `play`, with the playing flag,
 * the pause position and the rate kept in fields. The audio context's clock
 * (`audioContext.currentTime`) is the parameter `now` of every operation that
 * reads it; a decoded buffer is known by its duration; source nodes are
 * known by the number they were created under.
 */
module AudioEngine {
  import opened Wrappers

  const DefaultSampleRate: int := 44100
  const NotInitialized: string := "AudioContext not initialized"
  const NotLoaded: string := "Audio not loaded"

  /** `Math.max(lo, Math.min(hi, x))`. */
  function Clamp(x: real, lo: real, hi: real): (r: real)
    ensures lo <= hi ==> lo <= r <= hi
    ensures lo <= x <= hi ==> r == x
    ensures x < lo ==> r == lo
    ensures lo <= hi < x ==> r == hi
  {
    var m := if hi < x then hi else x;
    if lo < m then m else lo
  }

  /** Clamping twice is clamping once. */
  lemma ClampIdempotent(x: real, lo: real, hi: real)
    requires lo <= hi
    ensures Clamp(Clamp(x, lo, hi), lo, hi) == Clamp(x, lo, hi)
  {
  }

  /** Clamping keeps the order of its inputs. */
  lemma ClampMonotone(x: real, y: real, lo: real, hi: real)
    requires x <= y
    ensures Clamp(x, lo, hi) <= Clamp(y, lo, hi)
  {
  }

  /** All fields of an engine, as one value. */
  datatype EngineState = EngineState(
    hasContext: bool,
    sampleRate: int,
    buffer: Option<real>,
    source: Option<nat>,
    nodesCreated: nat,
    sourceRate: real,
    sourceRunning: bool,
    gain: real,
    isPlaying: bool,
    startTime: real,
    pauseTime: real,
    playbackRate: real)

  /** How `fetch`, `arrayBuffer` and `decodeAudioData` end: a buffer of that duration, or a rejection. */
  datatype Decode = Decoded(duration: real) | Rejected(reason: string)

  class Engine {
    /** The audio context, its analyser and its gain node, created together in a browser. */
    var hasContext: bool
    var sampleRate: int
    /** The decoded buffer, by its duration in seconds. */
    var buffer: Option<real>
    /** The current source node. */
    var source: Option<nat>
    var nodesCreated: nat
    /** The current source node's `playbackRate.value`. */
    var sourceRate: real
    /** The current source node has been started and has not yet ended. */
    var sourceRunning: bool
    /** The gain node's `gain.value`. */
    var gain: real
    var isPlaying: bool
    var startTime: real
    var pauseTime: real
    var playbackRate: real

    function State(): EngineState
      reads this
    {
      EngineState(hasContext, sampleRate, buffer, source, nodesCreated, sourceRate, sourceRunning,
                  gain, isPlaying, startTime, pauseTime, playbackRate)
    }

    /**
     * Playing needs a loaded context and a source node; a source node comes
     * from the context; and the playing flag is true exactly while the
     * current node runs.
     */
    ghost predicate Valid()
      reads this
    {
      && (isPlaying ==> hasContext && buffer.Some? && source.Some?)
      && (source.Some? ==> hasContext && 1 <= source.value <= nodesCreated)
      && (sourceRunning ==> source.Some?)
      && isPlaying == sourceRunning
    }

    /** `constructor`: the context exists only in a browser, at the configured rate or 44100 Hz when none (or 0) is given. */
    constructor (inBrowser: bool, configSampleRate: Option<int>)
      ensures Valid()
      ensures hasContext == inBrowser
      ensures inBrowser ==> sampleRate == (if configSampleRate.Some? && configSampleRate.value != 0
                                           then configSampleRate.value else DefaultSampleRate)
      ensures buffer.None? && source.None? && nodesCreated == 0 && !sourceRunning && !isPlaying
      ensures gain == 1.0 && startTime == 0.0 && pauseTime == 0.0 && playbackRate == 1.0 && sourceRate == 1.0
    {
      hasContext := inBrowser;
      sampleRate := if configSampleRate.Some? && configSampleRate.value != 0 then configSampleRate.value
                    else DefaultSampleRate;
      buffer := None;
      source := None;
      nodesCreated := 0;
      sourceRate := 1.0;
      sourceRunning := false;
      gain := 1.0;
      isPlaying := false;
      startTime := 0.0;
      pauseTime := 0.0;
      playbackRate := 1.0;
    }

    /** `getCurrentTime`: 0 without a context, the clock minus the start while playing, else the pause position. */
    function CurrentTime(now: real): (t: real)
      reads this
      ensures !hasContext ==> t == 0.0
      ensures hasContext && !isPlaying ==> t == pauseTime
      ensures hasContext && isPlaying ==> t + startTime == now
    {
      if !hasContext then 0.0
      else if isPlaying then now - startTime
      else pauseTime
    }

    /** `getDuration`: the buffer's duration, 0 before a buffer is loaded. */
    function Duration(): (d: real)
      reads this
      ensures buffer.None? ==> d == 0.0
      ensures buffer.Some? ==> d == buffer.value
    {
      buffer.GetOr(0.0)
    }

    /** `getVolume`: the gain, 0 without a gain node. */
    function Volume(): (v: real)
      reads this
      ensures !hasContext ==> v == 0.0
      ensures hasContext ==> v == gain
    {
      if hasContext then gain else 0.0
    }

    /**
     * `loadAudioFile`: fails without a context; otherwise the fetch and
     * decode either yield a buffer, which replaces the old one, or reject,
     * and the rejection reaches the caller with the engine unchanged.
     */
    method LoadAudioFile(decoded: Decode) returns (err: Option<string>)
      requires Valid()
      modifies this
      ensures Valid()
      ensures !old(hasContext) ==> err == Some(NotInitialized) && State() == old(State())
      ensures old(hasContext) && decoded.Rejected? ==> err == Some(decoded.reason) && State() == old(State())
      ensures old(hasContext) && decoded.Decoded? ==>
                err.None? && State() == old(State()).(buffer := Some(decoded.duration))
    {
      if !hasContext {
        return Some(NotInitialized);
      }
      match decoded
      case Rejected(reason) =>
        return Some(reason);
      case Decoded(duration) =>
        buffer := Some(duration);
        err := None;
    }

    /**
     * `play`: fails unless a buffer is loaded, does nothing while playing,
     * else starts a fresh node at the current rate from the pause position.
     */
    method Play(now: real) returns (err: Option<string>)
      requires Valid()
      modifies this
      ensures Valid()
      ensures !old(hasContext) || old(buffer).None? ==> err == Some(NotLoaded) && State() == old(State())
      ensures old(hasContext) && old(buffer).Some? && old(isPlaying) ==> err.None? && State() == old(State())
      ensures old(hasContext) && old(buffer).Some? && !old(isPlaying) ==>
        && err.None?
        && State() == old(State()).(source := Some(old(nodesCreated) + 1), nodesCreated := old(nodesCreated) + 1,
                                    sourceRate := old(playbackRate), sourceRunning := true,
                                    isPlaying := true, startTime := now - old(pauseTime))
        && CurrentTime(now) == old(pauseTime)
    {
      if !hasContext || buffer.None? {
        return Some(NotLoaded);
      }
      err := None;
      if isPlaying {
        return;
      }
      nodesCreated := nodesCreated + 1;
      source := Some(nodesCreated);
      sourceRate := playbackRate;
      sourceRunning := true;
      startTime := now - pauseTime;
      isPlaying := true;
    }

    /** `pause`: does nothing unless playing, else stops the node and keeps the position reached. */
    method Pause(now: real)
      requires Valid()
      modifies this
      ensures Valid()
      ensures old(source).None? || !old(isPlaying) ==> State() == old(State())
      ensures old(source).Some? && old(isPlaying) ==>
        State() == old(State()).(pauseTime := old(CurrentTime(now)), sourceRunning := false, isPlaying := false)
      ensures CurrentTime(now) == old(CurrentTime(now))
      ensures !isPlaying
    {
      if source.None? || !isPlaying {
        return;
      }
      pauseTime := CurrentTime(now);
      sourceRunning := false;
      isPlaying := false;
    }

    /** `seek`: pause if playing, move the pause position, and play again if it was playing. */
    method Seek(time: real, now: real)
      requires Valid()
      modifies this
      ensures Valid()
      ensures isPlaying == old(isPlaying)
      ensures pauseTime == time
      ensures hasContext ==> CurrentTime(now) == time
      ensures !old(isPlaying) ==> State() == old(State()).(pauseTime := time)
      ensures old(isPlaying) ==> source == Some(old(nodesCreated) + 1) && sourceRate == playbackRate
      ensures hasContext == old(hasContext) && buffer == old(buffer) && gain == old(gain)
      ensures playbackRate == old(playbackRate) && sampleRate == old(sampleRate)
    {
      var wasPlaying := isPlaying;
      if isPlaying {
        Pause(now);
      }
      pauseTime := time;
      if wasPlaying {
        var _ := Play(now);
      }
    }

    /** `setPlaybackRate`: the rate clamped to [0.5, 2], passed on to the current node if there is one. */
    method SetPlaybackRate(rate: real)
      requires Valid()
      modifies this
      ensures Valid()
      ensures 0.5 <= playbackRate <= 2.0
      ensures 0.5 <= rate <= 2.0 ==> playbackRate == rate
      ensures State() == old(State()).(playbackRate := Clamp(rate, 0.5, 2.0),
                                       sourceRate := if old(source).Some? then Clamp(rate, 0.5, 2.0) else old(sourceRate))
    {
      playbackRate := Clamp(rate, 0.5, 2.0);
      if source.Some? {
        sourceRate := playbackRate;
      }
    }

    /** `setVolume`: the gain clamped to [0, 1], when there is a gain node. */
    method SetVolume(volume: real)
      requires Valid()
      modifies this
      ensures Valid()
      ensures 0.0 <= Volume() <= 1.0 || !hasContext
      ensures hasContext ==> Volume() == Clamp(volume, 0.0, 1.0)
      ensures State() == old(State()).(gain := if old(hasContext) then Clamp(volume, 0.0, 1.0) else old(gain))
    {
      if hasContext {
        gain := Clamp(volume, 0.0, 1.0);
      }
    }

    /**
     * The `onended` callback as written: whichever node ended, it clears the
     * playing flag. A node ends when it runs out or when `pause` stops it.
     */
    method SourceEndedAsWritten(node: nat)
      modifies this
      ensures State() == old(State()).(isPlaying := false,
                                       sourceRunning := old(sourceRunning) && old(source) != Some(node))
    {
      isPlaying := false;
      if source == Some(node) {
        sourceRunning := false;
      }
    }

    /** The `onended` callback as intended: only the end of the current node stops playback. */
    method SourceEnded(node: nat)
      requires Valid()
      modifies this
      ensures Valid()
      ensures old(source) == Some(node) ==> State() == old(State()).(isPlaying := false, sourceRunning := false)
      ensures old(source) != Some(node) ==> State() == old(State())
    {
      if source == Some(node) {
        isPlaying := false;
        sourceRunning := false;
      }
    }
  }

  /**
   * Seeking while playing stops the first node and starts a second; the
   * first node's late `ended` event then clears the flag as written, while
   * the second node still plays.
   */
  method StaleEndAfterSeekAsWritten() returns (isPlaying: bool, nodeRunning: bool)
    ensures !isPlaying && nodeRunning
  {
    var e := new Engine(true, None);
    var _ := e.LoadAudioFile(Decoded(10.0));
    var _ := e.Play(0.0);
    var first := e.source.value;
    e.Seek(5.0, 1.0);
    e.SourceEndedAsWritten(first);
    isPlaying, nodeRunning := e.isPlaying, e.sourceRunning;
  }

  /** The same events with the intended callback: the engine still reports playing. */
  method StaleEndAfterSeek() returns (isPlaying: bool, nodeRunning: bool)
    ensures isPlaying && nodeRunning
  {
    var e := new Engine(true, None);
    var _ := e.LoadAudioFile(Decoded(10.0));
    var _ := e.Play(0.0);
    var first := e.source.value;
    e.Seek(5.0, 1.0);
    e.SourceEnded(first);
    isPlaying, nodeRunning := e.isPlaying, e.sourceRunning;
  }
}
