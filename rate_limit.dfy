/**
 * The in-memory fixed-window rate limiter of the web front end
 * (frontend/src/lib/rate-limit.ts): a table of counters keyed by
 * identifier and window length, the periodic sweep that drops expired
 * counters, client-IP extraction from proxy headers, and the presets.
 *
 * Times are whole milliseconds and the clock (`Date.now()`) is a parameter.
 */
module RateLimit {
  import opened Wrappers
  import opened Strings

  /** `RateLimitConfig`: how many requests a window of `windowMs` milliseconds admits. */
  datatype Config = Config(maxRequests: int, windowMs: int)

  /** One counter: requests seen in the current window and when the window ends. */
  datatype Entry = Entry(count: int, resetTime: int)

  /** `RateLimitResult`. */
  datatype Result = Result(allowed: bool, remaining: int, resetIn: int, limit: int)

  const HourMs: int := 60 * 60 * 1000

  const Strict: Config := Config(10, HourMs)
  const Moderate: Config := Config(30, HourMs)
  const Lenient: Config := Config(100, HourMs)
  /** Five failed logins per 15 minutes. */
  const Auth: Config := Config(5, 15 * 60 * 1000)

  /** The store key: the identifier, a colon, and the window length in decimal. */
  function Key(identifier: string, windowMs: int): string
  {
    identifier + ":" + IntToString(windowMs)
  }

  lemma NoColonInNumber(n: int)
    ensures ':' !in IntToString(n)
  {
    var s := IntToString(n);
    var d := NatToString(if n < 0 then -n else n);
    assert forall i :: 0 <= i < |d| ==> IsDigit(d[i]);
    if n < 0 {
      assert s == "-" + d;
      forall i | 0 <= i < |s| ensures s[i] != ':' {
        if i > 0 { assert s[i] == d[i - 1]; }
      }
    }
  }

  /** The last colon of a key sits right after the identifier. */
  lemma KeyParts(a: string, w: int)
    ensures LastIndexOf(Key(a, w), ':') == Some(|a|)
    ensures Key(a, w)[..|a|] == a && Key(a, w)[|a| + 1..] == IntToString(w)
  {
    var k := Key(a, w);
    NoColonInNumber(w);
    assert k[|a|] == ':';
    assert k[|a| + 1..] == IntToString(w);
    LastIndexOfAt(k, ':', |a|);
  }

  /**
   * Distinct identifiers, or distinct windows, never share a counter, even
   * when the identifier itself contains colons: the last colon of a key is
   * the one the key adds.
   */
  lemma KeyInjective(a: string, wa: int, b: string, wb: int)
    requires Key(a, wa) == Key(b, wb)
    ensures a == b && wa == wb
  {
    KeyParts(a, wa);
    KeyParts(b, wb);
    IntToStringInjective(wa, wb);
  }

  /** `Math.ceil(x / d)` for a positive integer divisor. */
  function CeilDiv(x: int, d: int): (q: int)
    requires d > 0
    ensures (q - 1) * d < x <= q * d
  {
    -((-x) / d)
  }

  /** Whether a call at `now` starts a new window for `key`. */
  predicate StartsWindow(store: map<string, Entry>, key: string, now: int)
  {
    key !in store || store[key].resetTime < now
  }

  /**
   * `checkRateLimit` as a function of the store: the answer and the new
   * store. The call counts even when it is refused.
   */
  function Check(store: map<string, Entry>, identifier: string, cfg: Config, now: int)
    : (out: (Result, map<string, Entry>))
    ensures Key(identifier, cfg.windowMs) in out.1
    ensures var key := Key(identifier, cfg.windowMs);
      var e := out.1[key];
      && out.1 == store[key := e]
      && (StartsWindow(store, key, now) ==> e == Entry(1, now + cfg.windowMs))
      && (!StartsWindow(store, key, now) ==> e == store[key].(count := store[key].count + 1))
      && (out.0.allowed <==> e.count <= cfg.maxRequests)
      && out.0.remaining == (if cfg.maxRequests - e.count > 0 then cfg.maxRequests - e.count else 0)
      && out.0.limit == cfg.maxRequests
      && out.0.resetIn == CeilDiv(e.resetTime - now, 1000)
  {
    var key := Key(identifier, cfg.windowMs);
    var e0 := if StartsWindow(store, key, now) then Entry(0, now + cfg.windowMs) else store[key];
    var e := e0.(count := e0.count + 1);
    var remaining := if cfg.maxRequests - e.count > 0 then cfg.maxRequests - e.count else 0;
    (Result(e.count <= cfg.maxRequests, remaining, CeilDiv(e.resetTime - now, 1000), cfg.maxRequests),
     store[key := e])
  }

  /** The entries the sweep keeps: those whose window has not ended before `now`. */
  function Swept(store: map<string, Entry>, now: int): (s: map<string, Entry>)
    ensures s.Keys <= store.Keys
    ensures forall k :: k in store ==> (k in s <==> store[k].resetTime >= now)
    ensures forall k :: k in s ==> s[k] == store[k]
  {
    map k | k in store && store[k].resetTime >= now :: store[k]
  }

  /**
   * The sweep is invisible to callers: any later check answers exactly as
   * it would have without the sweep, since it only drops counters whose
   * windows a check would restart anyway.
   */
  lemma SweepIsTransparent(store: map<string, Entry>, sweptAt: int, identifier: string, cfg: Config, now: int)
    requires sweptAt <= now
    ensures Check(Swept(store, sweptAt), identifier, cfg, now).0 == Check(store, identifier, cfg, now).0
    ensures Check(Swept(store, sweptAt), identifier, cfg, now).1
            == Swept(Check(store, identifier, cfg, now).1, sweptAt)[Key(identifier, cfg.windowMs)
               := Check(store, identifier, cfg, now).1[Key(identifier, cfg.windowMs)]]
  {
    var key := Key(identifier, cfg.windowMs);
    var sw := Swept(store, sweptAt);
    assert StartsWindow(sw, key, now) == StartsWindow(store, key, now);
    var l := Check(sw, identifier, cfg, now).1;
    var r := Swept(Check(store, identifier, cfg, now).1, sweptAt)[key := Check(store, identifier, cfg, now).1[key]];
    assert l.Keys == r.Keys;
  }

  /** A fresh identifier's first call is admitted with one request used. */
  lemma FirstCallAdmitted(store: map<string, Entry>, identifier: string, cfg: Config, now: int)
    requires Key(identifier, cfg.windowMs) !in store && cfg.maxRequests >= 1
    ensures var r := Check(store, identifier, cfg, now).0;
      r.allowed && r.remaining == cfg.maxRequests - 1 && r.limit == cfg.maxRequests
  {
  }

  /**
   * With the STRICT preset (10 per hour) a fresh identifier's first call is
   * admitted with 9 left and its window resets in 3600 s.
   */
  lemma StrictFirstCall(store: map<string, Entry>, identifier: string, now: int)
    requires Key(identifier, Strict.windowMs) !in store
    ensures var r := Check(store, identifier, Strict, now).0;
      r == Result(true, 9, 3600, 10)
  {
    FirstCallAdmitted(store, identifier, Strict, now);
  }

  /** `n` calls for one identifier at the times `ts`. */
  function Calls(store: map<string, Entry>, identifier: string, cfg: Config, ts: seq<int>): map<string, Entry>
  {
    if ts == [] then store else Check(Calls(store, identifier, cfg, ts[..|ts| - 1]), identifier, cfg, ts[|ts| - 1]).1
  }

  /** Calls within one window that started at `t0` and has not ended by the last of them. */
  predicate WithinWindow(ts: seq<int>, t0: int, windowMs: int)
  {
    forall i :: 0 <= i < |ts| ==> t0 <= ts[i] <= t0 + windowMs
  }

  /**
   * Starting from no counter, every call inside the first window adds one:
   * after the calls `ts` the counter holds `|ts|` and the window still ends
   * at `ts[0] + windowMs`.
   */
  lemma {:induction false} CallsCount(store: map<string, Entry>, identifier: string, cfg: Config, ts: seq<int>)
    requires Key(identifier, cfg.windowMs) !in store && |ts| > 0
    requires WithinWindow(ts, ts[0], cfg.windowMs)
    ensures Calls(store, identifier, cfg, ts)[Key(identifier, cfg.windowMs)] == Entry(|ts|, ts[0] + cfg.windowMs)
    decreases |ts|
  {
    if |ts| > 1 {
      var init := ts[..|ts| - 1];
      assert init[0] == ts[0];
      assert WithinWindow(init, ts[0], cfg.windowMs) by {
        forall i | 0 <= i < |init| ensures ts[0] <= init[i] <= ts[0] + cfg.windowMs {
          assert init[i] == ts[i];
        }
      }
      CallsCount(store, identifier, cfg, init);
    }
  }

  /**
   * Once `maxRequests` calls have been made inside one window, the next call
   * in that window is refused with nothing remaining.
   */
  lemma BlockedAfterLimit(store: map<string, Entry>, identifier: string, cfg: Config, ts: seq<int>, now: int)
    requires Key(identifier, cfg.windowMs) !in store && |ts| == cfg.maxRequests && |ts| > 0
    requires WithinWindow(ts, ts[0], cfg.windowMs) && ts[0] <= now <= ts[0] + cfg.windowMs
    ensures var r := Check(Calls(store, identifier, cfg, ts), identifier, cfg, now).0;
      !r.allowed && r.remaining == 0
  {
    CallsCount(store, identifier, cfg, ts);
  }

  /** Whatever was counted, a call after the window ended is admitted again. */
  lemma AdmittedAfterWindow(store: map<string, Entry>, identifier: string, cfg: Config, now: int)
    requires Key(identifier, cfg.windowMs) in store && store[Key(identifier, cfg.windowMs)].resetTime < now
    requires cfg.maxRequests >= 1
    ensures Check(store, identifier, cfg, now).0.allowed
    ensures Check(store, identifier, cfg, now).0.remaining == cfg.maxRequests - 1
  {
  }

  /** Counters of different identifiers do not interfere. */
  lemma IdentifiersIndependent(store: map<string, Entry>, a: string, b: string, cfg: Config, now: int)
    requires a != b
    ensures var after := Check(store, a, cfg, now).1;
      Check(after, b, cfg, now).0 == Check(store, b, cfg, now).0
  {
    if Key(a, cfg.windowMs) == Key(b, cfg.windowMs) {
      KeyInjective(a, cfg.windowMs, b, cfg.windowMs);
    }
  }

  /** The module-level `rateLimitStore` and the two operations that mutate it. */
  class RateLimiter {
    var store: map<string, Entry>

    constructor ()
      ensures store == map[]
    {
      store := map[];
    }

    /** `checkRateLimit`: creates or restarts the counter, then counts the call. */
    method CheckRateLimit(identifier: string, cfg: Config, now: int) returns (r: Result)
      modifies this
      ensures (r, store) == Check(old(store), identifier, cfg, now)
    {
      var key := Key(identifier, cfg.windowMs);
      var entry: Entry;
      if key !in store || store[key].resetTime < now {
        entry := Entry(0, now + cfg.windowMs);
        store := store[key := entry];
      } else {
        entry := store[key];
      }
      ghost var before := store;
      entry := entry.(count := entry.count + 1);
      store := store[key := entry];
      assert store == old(store)[key := entry] by {
        assert before == old(store) || before == old(store)[key := Entry(0, now + cfg.windowMs)];
      }
      var allowed := entry.count <= cfg.maxRequests;
      var remaining := if cfg.maxRequests - entry.count > 0 then cfg.maxRequests - entry.count else 0;
      var resetIn := CeilDiv(entry.resetTime - now, 1000);
      r := Result(allowed, remaining, resetIn, cfg.maxRequests);
    }

    /** The periodic sweep: deletes every entry whose window ended before `now`. */
    method Sweep(now: int)
      modifies this
      ensures store == Swept(old(store), now)
    {
      var keys := store.Keys;
      while keys != {}
        invariant keys <= old(store).Keys
        invariant store.Keys <= old(store).Keys
        invariant forall k :: k in store ==> store[k] == old(store)[k]
        invariant forall k :: k in old(store) && k in keys ==> k in store
        invariant forall k :: k in old(store) && k !in keys ==> (k in store <==> old(store)[k].resetTime >= now)
        decreases |keys|
      {
        var k :| k in keys;
        if store[k].resetTime < now {
          store := store - {k};
        }
        keys := keys - {k};
      }
    }
  }

  // ---------------------------------------------------------------------------
  // getClientIp
  // ---------------------------------------------------------------------------

  /** ECMAScript WhiteSpace and LineTerminator code points, which `trim` removes. */
  predicate IsJsSpace(c: char)
  {
    c == '\U{0009}' || c == '\U{000A}' || c == '\U{000B}' || c == '\U{000C}' || c == '\U{000D}'
    || c == '\U{0020}' || c == '\U{00A0}' || c == '\U{1680}' || ('\U{2000}' <= c <= '\U{200A}')
    || c == '\U{2028}' || c == '\U{2029}' || c == '\U{202F}' || c == '\U{205F}' || c == '\U{3000}'
    || c == '\U{FEFF}'
  }

  function TrimStart(s: string): (r: string)
    ensures |r| <= |s| && r == s[|s| - |r|..]
    ensures forall i :: 0 <= i < |s| - |r| ==> IsJsSpace(s[i])
    ensures r == [] || !IsJsSpace(r[0])
  {
    if s != [] && IsJsSpace(s[0]) then TrimStart(s[1..]) else s
  }

  function TrimEnd(s: string): (r: string)
    ensures |r| <= |s| && r == s[..|r|]
    ensures forall i :: |r| <= i < |s| ==> IsJsSpace(s[i])
    ensures r == [] || !IsJsSpace(r[|r| - 1])
  {
    if s != [] && IsJsSpace(s[|s| - 1]) then TrimEnd(s[..|s| - 1]) else s
  }

  /** `String.prototype.trim`: no white space is left at either end. */
  function Trim(s: string): (r: string)
    ensures r == [] || (!IsJsSpace(r[0]) && !IsJsSpace(r[|r| - 1]))
  {
    var l := TrimStart(s);
    var r := TrimEnd(l);
    assert r == [] || r[0] == l[0];
    r
  }

  /** A string already free of surrounding white space trims to itself. */
  lemma TrimIdentity(s: string)
    requires s != [] && !IsJsSpace(s[0]) && !IsJsSpace(s[|s| - 1])
    ensures Trim(s) == s
  {
    assert TrimStart(s) == s;
  }

  /** The trimmed first entry of `x-forwarded-for`, or "" when there is none. */
  function FirstHop(headers: map<string, string>): string
  {
    if "x-forwarded-for" in headers && headers["x-forwarded-for"] != "" then
      var ips := Split(headers["x-forwarded-for"], ",");
      if |ips| > 0 && ips[0] != "" then Trim(ips[0]) else ""
    else ""
  }

  /** The trimmed `x-real-ip`, or "" when there is none. */
  function RealIp(headers: map<string, string>): string
  {
    if "x-real-ip" in headers && headers["x-real-ip"] != "" then Trim(headers["x-real-ip"]) else ""
  }

  /**
   * `getClientIp`: the first `x-forwarded-for` entry, else `x-real-ip`,
   * each trimmed and used only when non-empty, else "unknown". Header names
   * are the lower-case keys of `headers`.
   */
  function GetClientIp(headers: map<string, string>): (ip: string)
    ensures ip != ""
    ensures ip == "unknown" || (!IsJsSpace(ip[0]) && !IsJsSpace(ip[|ip| - 1]))
    ensures FirstHop(headers) != "" ==> ip == FirstHop(headers)
    ensures FirstHop(headers) == "" && RealIp(headers) != "" ==> ip == RealIp(headers)
  {
    var forwarded := FirstHop(headers);
    if forwarded != "" then forwarded
    else
      var fallback := RealIp(headers);
      if fallback != "" then fallback else "unknown"
  }

  /** A forwarded chain's first hop wins over everything else, whatever follows its comma. */
  lemma ForwardedFirstHop(headers: map<string, string>, ip: string, rest: string)
    requires ip != "" && ',' !in ip && !IsJsSpace(ip[0]) && !IsJsSpace(ip[|ip| - 1])
    ensures GetClientIp(headers["x-forwarded-for" := ip + "," + rest]) == ip
  {
    SplitPrefix(ip, ",", rest, true);
    TrimIdentity(ip);
  }

  /** Without a usable forwarded chain, the real-IP header is used, trimmed. */
  lemma RealIpFallback(headers: map<string, string>, ip: string)
    requires "x-forwarded-for" !in headers
    requires ip != "" && !IsJsSpace(ip[0]) && !IsJsSpace(ip[|ip| - 1])
    ensures GetClientIp(headers["x-real-ip" := ip]) == ip
  {
    TrimIdentity(ip);
  }

  /** With neither header the answer is "unknown". */
  lemma NoHeadersUnknown(headers: map<string, string>)
    requires "x-forwarded-for" !in headers && "x-real-ip" !in headers
    ensures GetClientIp(headers) == "unknown"
  {
  }
}
