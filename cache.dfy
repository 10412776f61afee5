/**
 * Cache-Control helpers (frontend/src/lib/cache.ts): the duration and
 * strategy constants, the header builder `generateCacheControl`, and
 * `setCacheHeaders` on a response's header map.
 */
module Cache {
  import opened Wrappers
  import opened Strings

  // ---------------------------------------------------------------------------
  // CacheDuration (seconds)
  // ---------------------------------------------------------------------------

  const NoDuration: int := 0
  const Minute: int := 60
  const FiveMinutes: int := 5 * 60
  const FifteenMinutes: int := 15 * 60
  const Hour: int := 60 * 60
  const Day: int := 24 * 60 * 60
  const Week: int := 7 * 24 * 60 * 60
  const Month: int := 30 * 24 * 60 * 60
  const Year: int := 365 * 24 * 60 * 60

  // ---------------------------------------------------------------------------
  // generateCacheControl
  // ---------------------------------------------------------------------------

  /** The builder's options; an absent number is `None`, and the defaults are those of `DefaultOptions`. */
  datatype CacheOptions = CacheOptions(
    maxAge: int,
    sMaxAge: Option<int>,
    staleWhileRevalidate: Option<int>,
    staleIfError: Option<int>,
    isPublic: bool,
    immutable: bool,
    mustRevalidate: bool)

  /** `generateCacheControl({})`: one hour, public, nothing else. */
  const DefaultOptions: CacheOptions := CacheOptions(Hour, None, None, None, true, false, false)

  /** The directives the builder knows, in the order it pushes them. */
  datatype DirectiveName =
    | Public | Private | MaxAge | SMaxAge | StaleWhileRevalidate | StaleIfError | ImmutableFlag | MustRevalidate

  function Token(n: DirectiveName): string
  {
    match n
    case Public => "public"
    case Private => "private"
    case MaxAge => "max-age"
    case SMaxAge => "s-maxage"
    case StaleWhileRevalidate => "stale-while-revalidate"
    case StaleIfError => "stale-if-error"
    case ImmutableFlag => "immutable"
    case MustRevalidate => "must-revalidate"
  }

  /** One directive: a bare token, or `token=value`. */
  datatype Directive = Directive(name: DirectiveName, value: Option<int>)

  function Render(d: Directive): string
  {
    match d.value
    case None => Token(d.name)
    case Some(v) => Token(d.name) + "=" + IntToString(v)
  }

  function Rendered(ds: seq<Directive>): (r: seq<string>)
    ensures |r| == |ds|
    ensures forall i :: 0 <= i < |ds| ==> r[i] == Render(ds[i])
  {
    seq(|ds|, i requires 0 <= i < |ds| => Render(ds[i]))
  }

  lemma RenderedSnoc(ds: seq<Directive>, d: Directive)
    ensures Rendered(ds + [d]) == Rendered(ds) + [Render(d)]
  {
  }

  /** A valued directive, present only when its value is. */
  function Valued(name: DirectiveName, v: Option<int>): seq<Directive>
  {
    if v.Some? then [Directive(name, v)] else []
  }

  /** A bare directive, present only when its flag is set. */
  function Flag(name: DirectiveName, b: bool): seq<Directive>
  {
    if b then [Directive(name, None)] else []
  }

  /** The directive list `generateCacheControl` pushes, in push order. */
  function Directives(o: CacheOptions): seq<Directive>
  {
    [Directive(if o.isPublic then Public else Private, None), Directive(MaxAge, Some(o.maxAge))]
    + Valued(SMaxAge, o.sMaxAge)
    + Valued(StaleWhileRevalidate, o.staleWhileRevalidate)
    + Valued(StaleIfError, o.staleIfError)
    + Flag(ImmutableFlag, o.immutable)
    + Flag(MustRevalidate, o.mustRevalidate)
  }

  function CacheControlOf(ds: seq<Directive>): string
  {
    Join(Rendered(ds), ", ")
  }

  /** The header value: the rendered directives joined by ", ". */
  function CacheControl(o: CacheOptions): string
  {
    CacheControlOf(Directives(o))
  }

  /**
   * Which optional directive the options ask for, and with what value:
   * an independent statement of the builder's five `if`s.
   */
  function Requested(o: CacheOptions, name: DirectiveName): Option<Option<int>>
  {
    match name
    case SMaxAge => if o.sMaxAge.Some? then Some(o.sMaxAge) else None
    case StaleWhileRevalidate => if o.staleWhileRevalidate.Some? then Some(o.staleWhileRevalidate) else None
    case StaleIfError => if o.staleIfError.Some? then Some(o.staleIfError) else None
    case ImmutableFlag => if o.immutable then Some(None) else None
    case MustRevalidate => if o.mustRevalidate then Some(None) else None
    case _ => None
  }

  /** Position of a directive in the fixed push order. */
  function Rank(name: DirectiveName): int
  {
    match name
    case Public => 0
    case Private => 0
    case MaxAge => 1
    case SMaxAge => 2
    case StaleWhileRevalidate => 3
    case StaleIfError => 4
    case ImmutableFlag => 5
    case MustRevalidate => 6
  }

  /** The first two directives: visibility, then `max-age`. */
  lemma DirectivesStart(o: CacheOptions)
    ensures var d := Directives(o);
      && |d| >= 2
      && d[0] == Directive(if o.isPublic then Public else Private, None)
      && d[1] == Directive(MaxAge, Some(o.maxAge))
  {
  }

  /** Ranks strictly increase along `d`. */
  predicate Ordered(d: seq<Directive>)
  {
    forall i, j :: 0 <= i < j < |d| ==> Rank(d[i].name) < Rank(d[j].name)
  }

  /** Every directive of `d` ranks below `r`. */
  predicate Below(d: seq<Directive>, r: int)
  {
    forall i :: 0 <= i < |d| ==> Rank(d[i].name) < r
  }

  lemma ExtendOrdered(d: seq<Directive>, e: seq<Directive>, r: int)
    requires Ordered(d) && Below(d, r)
    requires |e| <= 1 && (e != [] ==> Rank(e[0].name) == r)
    ensures Ordered(d + e) && Below(d + e, r + 1)
  {
  }

  /** Each directive appears at most once, in the fixed push order. */
  lemma DirectivesOrdered(o: CacheOptions)
    ensures Ordered(Directives(o))
  {
    var d := [Directive(if o.isPublic then Public else Private, None), Directive(MaxAge, Some(o.maxAge))];
    assert Ordered(d) && Below(d, 2);
    ExtendOrdered(d, Valued(SMaxAge, o.sMaxAge), 2);
    d := d + Valued(SMaxAge, o.sMaxAge);
    ExtendOrdered(d, Valued(StaleWhileRevalidate, o.staleWhileRevalidate), 3);
    d := d + Valued(StaleWhileRevalidate, o.staleWhileRevalidate);
    ExtendOrdered(d, Valued(StaleIfError, o.staleIfError), 4);
    d := d + Valued(StaleIfError, o.staleIfError);
    ExtendOrdered(d, Flag(ImmutableFlag, o.immutable), 5);
    d := d + Flag(ImmutableFlag, o.immutable);
    ExtendOrdered(d, Flag(MustRevalidate, o.mustRevalidate), 6);
  }

  /** Every directive after the first two was asked for, with the value it was asked for. */
  lemma DirectivesRequested(o: CacheOptions)
    ensures var d := Directives(o);
      forall i :: 2 <= i < |d| ==> Requested(o, d[i].name) == Some(d[i].value)
  {
    var d := Directives(o);
    forall i | 2 <= i < |d|
      ensures Requested(o, d[i].name) == Some(d[i].value)
    {
      var k := 2 + |Valued(SMaxAge, o.sMaxAge)|;
      var l := k + |Valued(StaleWhileRevalidate, o.staleWhileRevalidate)|;
      var m := l + |Valued(StaleIfError, o.staleIfError)|;
      var n := m + |Flag(ImmutableFlag, o.immutable)|;
      if i < k { assert d[i] == Directive(SMaxAge, o.sMaxAge); }
      else if i < l { assert d[i] == Directive(StaleWhileRevalidate, o.staleWhileRevalidate); }
      else if i < m { assert d[i] == Directive(StaleIfError, o.staleIfError); }
      else if i < n { assert d[i] == Directive(ImmutableFlag, None); }
      else { assert d[i] == Directive(MustRevalidate, None); }
    }
  }

  /** Every directive asked for is present. */
  lemma DirectivesComplete(o: CacheOptions)
    ensures var d := Directives(o);
      forall name :: Requested(o, name).Some? ==> exists i :: 2 <= i < |d| && d[i].name == name
  {
    var d := Directives(o);
    forall name | Requested(o, name).Some?
      ensures exists i :: 2 <= i < |d| && d[i].name == name
    {
      var k := |Valued(SMaxAge, o.sMaxAge)|;
      var l := k + |Valued(StaleWhileRevalidate, o.staleWhileRevalidate)|;
      var m := l + |Valued(StaleIfError, o.staleIfError)|;
      var n := m + |Flag(ImmutableFlag, o.immutable)|;
      match name {
        case SMaxAge => assert d[2].name == name;
        case StaleWhileRevalidate => assert d[2 + k].name == name;
        case StaleIfError => assert d[2 + l].name == name;
        case ImmutableFlag => assert d[2 + m].name == name;
        case MustRevalidate => assert d[2 + n].name == name;
      }
    }
  }

  lemma RenderedAppend(a: seq<Directive>, b: seq<Directive>)
    ensures Rendered(a + b) == Rendered(a) + Rendered(b)
  {
  }

  /** One of the builder's `if (x !== undefined) directives.push(`name=${x}`)` steps. */
  method PushValued(directives: seq<string>, name: DirectiveName, v: Option<int>) returns (out: seq<string>)
    ensures out == directives + Rendered(Valued(name, v))
  {
    out := directives;
    if v.Some? {
      out := out + [Token(name) + "=" + IntToString(v.value)];
    }
  }

  /** One of the builder's `if (flag) directives.push(name)` steps. */
  method PushFlag(directives: seq<string>, name: DirectiveName, b: bool) returns (out: seq<string>)
    ensures out == directives + Rendered(Flag(name, b))
  {
    out := directives;
    if b {
      out := out + [Token(name)];
    }
  }

  /**
   * `generateCacheControl`: pushes the directives one by one and joins
   * them; the result is the joined rendering of `Directives`.
   */
  method GenerateCacheControl(o: CacheOptions) returns (header: string)
    ensures header == CacheControl(o)
  {
    var directives: seq<string> := [];
    if o.isPublic {
      directives := directives + ["public"];
    } else {
      directives := directives + ["private"];
    }
    directives := directives + ["max-age" + "=" + IntToString(o.maxAge)];
    ghost var pushed := [Directive(if o.isPublic then Public else Private, None), Directive(MaxAge, Some(o.maxAge))];
    assert directives == Rendered(pushed);
    directives := PushValued(directives, SMaxAge, o.sMaxAge);
    RenderedAppend(pushed, Valued(SMaxAge, o.sMaxAge));
    pushed := pushed + Valued(SMaxAge, o.sMaxAge);
    directives := PushValued(directives, StaleWhileRevalidate, o.staleWhileRevalidate);
    RenderedAppend(pushed, Valued(StaleWhileRevalidate, o.staleWhileRevalidate));
    pushed := pushed + Valued(StaleWhileRevalidate, o.staleWhileRevalidate);
    directives := PushValued(directives, StaleIfError, o.staleIfError);
    RenderedAppend(pushed, Valued(StaleIfError, o.staleIfError));
    pushed := pushed + Valued(StaleIfError, o.staleIfError);
    directives := PushFlag(directives, ImmutableFlag, o.immutable);
    RenderedAppend(pushed, Flag(ImmutableFlag, o.immutable));
    pushed := pushed + Flag(ImmutableFlag, o.immutable);
    directives := PushFlag(directives, MustRevalidate, o.mustRevalidate);
    RenderedAppend(pushed, Flag(MustRevalidate, o.mustRevalidate));
    pushed := pushed + Flag(MustRevalidate, o.mustRevalidate);
    assert pushed == Directives(o);
    header := Join(directives, ", ");
  }

  lemma JoinTwo(l: seq<string>, sep: string)
    requires |l| == 2
    ensures Join(l, sep) == l[0] + sep + l[1]
  {
    assert Join(l[1..], sep) == l[1];
  }

  /** With no options the header is `public, max-age=3600`. */
  lemma DefaultHeader()
    ensures CacheControl(DefaultOptions) == "public, max-age=3600"
  {
    var d := [Directive(Public, None), Directive(MaxAge, Some(Hour))];
    assert Directives(DefaultOptions) == d;
    RenderValued(MaxAge, Hour, "max-age=");
    HourText();
    JoinTwo(Rendered(d), ", ");
  }

  lemma HourText()
    ensures IntToString(Hour) == "3600"
  {
  }

  // ---------------------------------------------------------------------------
  // CacheStrategy and CacheRecommendations
  // ---------------------------------------------------------------------------

  /** `CacheStrategy`: each header, as its comma-separated directives. */
  const NoCache: string := "no-cache, no-store, must-revalidate"
  const Revalidate: string := Join(["public", "max-age=0", "must-revalidate"], ", ")
  const Short: string := Join(["public", "max-age=" + IntToString(FiveMinutes), "s-maxage=" + IntToString(FiveMinutes),
                               "stale-while-revalidate=" + IntToString(Hour)], ", ")
  const Medium: string := Join(["public", "max-age=" + IntToString(Hour), "s-maxage=" + IntToString(Hour),
                                "stale-while-revalidate=" + IntToString(Day)], ", ")
  const Long: string := Join(["public", "max-age=" + IntToString(Day), "s-maxage=" + IntToString(Day),
                              "stale-while-revalidate=" + IntToString(Week)], ", ")
  const Immutable: string := Join(["public", "max-age=" + IntToString(Year), "immutable"], ", ")

  /** `CacheRecommendations`: each content kind's strategy. */
  const StaticPage: string := Long
  const DynamicPage: string := NoCache
  const ApiResponse: string := NoCache
  const PublicApi: string := Short
  const StaticAssets: string := Immutable

  /** The options `CacheRecommendations.AUDIO_FILES` is built from. */
  const AudioFilesOptions: CacheOptions := CacheOptions(Hour, Some(Hour), Some(Day), None, true, false, false)

  /** The options of a public strategy with `s-maxage` equal to `max-age` and a revalidation window. */
  function TimedOptions(age: int, stale: int): CacheOptions
  {
    CacheOptions(age, Some(age), Some(stale), None, true, false, false)
  }

  /** The timed options' directives, rendered. */
  lemma TimedRendered(age: int, stale: int)
    ensures Rendered(Directives(TimedOptions(age, stale)))
            == ["public", "max-age=" + IntToString(age), "s-maxage=" + IntToString(age),
                "stale-while-revalidate=" + IntToString(stale)]
  {
    TimedDirectives(age, stale);
    RenderTimed(age, stale);
  }

  lemma TimedDirectives(age: int, stale: int)
    ensures Directives(TimedOptions(age, stale))
            == [Directive(Public, None), Directive(MaxAge, Some(age)), Directive(SMaxAge, Some(age)),
                Directive(StaleWhileRevalidate, Some(stale))]
  {
  }

  lemma RenderTimed(age: int, stale: int)
    ensures Rendered([Directive(Public, None), Directive(MaxAge, Some(age)), Directive(SMaxAge, Some(age)),
                      Directive(StaleWhileRevalidate, Some(stale))])
            == ["public", "max-age=" + IntToString(age), "s-maxage=" + IntToString(age),
                "stale-while-revalidate=" + IntToString(stale)]
  {
    RenderValued(MaxAge, age, "max-age=");
    RenderValued(SMaxAge, age, "s-maxage=");
    RenderValued(StaleWhileRevalidate, stale, "stale-while-revalidate=");
  }

  /** A valued directive renders as its token, `=`, and the number. */
  lemma RenderValued(name: DirectiveName, v: int, prefix: string)
    requires Token(name) + "=" == prefix
    ensures Render(Directive(name, Some(v))) == prefix + IntToString(v)
  {
  }

  /** The short, medium and long strategies are what the builder makes of their durations. */
  lemma TimedStrategiesMatchBuilder()
    ensures Short == CacheControl(TimedOptions(FiveMinutes, Hour))
    ensures Medium == CacheControl(TimedOptions(Hour, Day))
    ensures Long == CacheControl(TimedOptions(Day, Week))
  {
    TimedRendered(FiveMinutes, Hour);
    TimedRendered(Hour, Day);
    TimedRendered(Day, Week);
  }

  /** A public strategy with only `max-age` and one flag. */
  function FlaggedOptions(age: int, immutable: bool): CacheOptions
  {
    CacheOptions(age, None, None, None, true, immutable, !immutable)
  }

  /** The flagged options' directives, rendered. */
  lemma FlaggedRendered(age: int, immutable: bool)
    ensures Rendered(Directives(FlaggedOptions(age, immutable)))
            == ["public", "max-age=" + IntToString(age), if immutable then "immutable" else "must-revalidate"]
  {
    var d := [Directive(Public, None), Directive(MaxAge, Some(age)),
              Directive(if immutable then ImmutableFlag else MustRevalidate, None)];
    assert Directives(FlaggedOptions(age, immutable)) == d;
    var r := Rendered(d);
    assert r[0] == "public";
    assert r[1] == "max-age=" + IntToString(age);
    assert r[2] == if immutable then "immutable" else "must-revalidate";
  }

  /** The immutable and revalidate strategies are what the builder makes of their flags. */
  lemma FlagStrategiesMatchBuilder()
    ensures Immutable == CacheControl(FlaggedOptions(Year, true))
    ensures Revalidate == CacheControl(FlaggedOptions(0, false))
  {
    FlaggedRendered(Year, true);
    FlaggedRendered(0, false);
    assert "max-age=" + IntToString(0) == "max-age=0" by { assert IntToString(0) == "0"; }
  }

  /** `AUDIO_FILES` is the medium strategy. */
  lemma AudioFilesIsMedium()
    ensures CacheControl(AudioFilesOptions) == Medium
  {
    TimedStrategiesMatchBuilder();
  }

  // ---------------------------------------------------------------------------
  // setCacheHeaders
  // ---------------------------------------------------------------------------

  /** A response's `Headers`: names are case-insensitive, stored lower-cased. */
  class Headers {
    var entries: map<string, string>

    constructor()
      ensures entries == map[]
    {
      entries := map[];
    }

    /** `Headers.get`. */
    function Get(name: string): Option<string>
      reads this
    {
      if Lower(name) in entries then Some(entries[Lower(name)]) else None
    }

    /** `Headers.set`: replaces the value under the name, whatever its case. */
    method Set(name: string, value: string)
      modifies this
      ensures entries == old(entries)[Lower(name) := value]
      ensures Get(name) == Some(value)
    {
      entries := entries[Lower(name) := value];
    }
  }

  /** `setCacheHeaders`: sets `Cache-Control` to the strategy, the medium one by default. */
  method SetCacheHeaders(headers: Headers, strategy: Option<string>)
    modifies headers
    ensures headers.entries == old(headers.entries)["cache-control" := strategy.GetOr(Medium)]
    ensures headers.Get("Cache-Control") == Some(strategy.GetOr(Medium))
  {
    assert Lower("Cache-Control") == "cache-control";
    headers.Set("Cache-Control", if strategy.Some? then strategy.value else Medium);
  }
}
