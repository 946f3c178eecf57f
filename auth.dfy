/**
 * Access control of the API: api/_auth.js.
 *
 * A request must carry the configured secret in `x-api-key`. Requests whose referer
 * (or origin) names the hosted frontend are then rate limited per client IP: an
 * in-memory table counts requests in a one-hour window, at most ten allowed.
 * Every other caller gets a fixed unlimited record. The clock and the environment
 * are parameters: `cleanNow` is the reading of `cleanOldEntries`, `now` the later
 * reading of `checkRateLimit`.
 */
module Auth {
  import opened Wrappers
  import opened JsText

  const MaxRequests := 10
  const WindowMs := 60 * 60 * 1000

  /** A table entry: requests counted in the current window, and when the window opened. */
  datatype Entry = Entry(count: int, resetTime: int)

  datatype RateLimitInfo = RateLimitInfo(
    allowed: bool, remaining: int, resetInSeconds: int, resetInMinutes: int, current: int, limit: int)

  /** The record callers outside the frontend get. */
  const Unlimited := RateLimitInfo(true, 999999, 0, 0, 0, 999999)

  /** The request headers the check reads; None when absent. */
  datatype Headers = Headers(
    apiKey: Option<string>, forwardedFor: Option<string>, realIp: Option<string>,
    referer: Option<string>, origin: Option<string>)

  datatype Source = Frontend | Api

  datatype Validation =
    | Unauthorized
    | RateLimited(rateLimit: RateLimitInfo)
    | Accepted(rateLimit: RateLimitInfo, ip: string, source: Source)
  {
    predicate Valid() { Accepted? }

    /** The HTTP status of a refusal; an accepted result carries none in the source, and 200 stands for it here. */
    function Status(): (code: int)
      ensures Valid() <==> code == 200
    {
      match this
      case Unauthorized => 401
      case RateLimited(_) => 429
      case Accepted(_, _, _) => 200
    }
  }

  // ---------------------------------------------------------------- arithmetic of the report

  /** `Math.ceil(a / b)` for a positive b: the least q with a <= q * b. */
  function CeilDiv(a: int, b: int): (q: int)
    requires b > 0
    ensures (q - 1) * b < a <= q * b
  {
    -((-a) / b)
  }

  // ---------------------------------------------------------------- the table, as functions

  /** An entry `cleanOldEntries` deletes: its window opened more than an hour before the reading. */
  predicate Stale(e: Entry, now: int) {
    now - e.resetTime > 60 * 60 * 1000
  }

  /** The table after `cleanOldEntries` at `cleanNow`. */
  function Fresh(m: map<string, Entry>, cleanNow: int): (r: map<string, Entry>)
    ensures forall k :: k in r <==> k in m && !Stale(m[k], cleanNow)
    ensures forall k | k in r :: r[k] == m[k]
  {
    map k | k in m && !Stale(m[k], cleanNow) :: m[k]
  }

  /** The IP's entry after a counted request: a new window after an hour, otherwise one more. */
  function Bumped(m: map<string, Entry>, ip: string, now: int): Entry {
    var data := if ip in m then m[ip] else Entry(0, now);
    if now - data.resetTime > WindowMs then Entry(1, now) else Entry(data.count + 1, data.resetTime)
  }

  /** The table after one counted request. */
  function Step(m: map<string, Entry>, ip: string, cleanNow: int, now: int): map<string, Entry> {
    var kept := Fresh(m, cleanNow);
    kept[ip := Bumped(kept, ip, now)]
  }

  /** What `checkRateLimit` reports for the IP's updated entry. */
  function Report(e: Entry, now: int): RateLimitInfo {
    var seconds := CeilDiv(e.resetTime + WindowMs - now, 1000);
    RateLimitInfo(
      e.count <= MaxRequests,
      if MaxRequests - e.count > 0 then MaxRequests - e.count else 0,
      seconds,
      CeilDiv(seconds, 60),
      e.count,
      MaxRequests)
  }

  /** `x-forwarded-for`'s first field, else `x-real-ip`, else "unknown" (each only when non-empty). */
  function ClientIp(h: Headers): (ip: string)
    ensures ip != []
    ensures h.forwardedFor.Some? && FirstCommaField(h.forwardedFor.value) != [] ==>
      && StartsWith(h.forwardedFor.value, ip)
      && (forall i | 0 <= i < |ip| :: ip[i] != ',')
      && (|ip| == |h.forwardedFor.value| || h.forwardedFor.value[|ip|] == ',')
    ensures !(h.forwardedFor.Some? && FirstCommaField(h.forwardedFor.value) != []) ==>
      ip == (if Truthy(h.realIp) then h.realIp.value else "unknown")
  {
    var first := if h.forwardedFor.Some? then Some(FirstCommaField(h.forwardedFor.value)) else None;
    var chosen := Or(Or(first, h.realIp), Some("unknown"));
    chosen.value
  }

  /** The secret is configured and non-empty, and the key header equals it. */
  predicate Authorized(h: Headers, secretKey: Option<string>) {
    Truthy(secretKey) && h.apiKey == secretKey
  }

  /** `referer || origin || ''` names the hosted frontend or a local one. */
  predicate FromFrontend(h: Headers) {
    var o := Or(h.referer, h.origin);
    var referer := if Truthy(o) then o.value else "";
    Contains(referer, "vercel.app") || Contains(referer, "localhost")
  }

  /** `validateRequest`: the verdict and the table it leaves. */
  function Validate(m: map<string, Entry>, h: Headers, secretKey: Option<string>, cleanNow: int, now: int)
    : (Validation, map<string, Entry>)
  {
    if !Authorized(h, secretKey) then (Unauthorized, m)
    else
      var ip := ClientIp(h);
      if FromFrontend(h) then
        var m' := Step(m, ip, cleanNow, now);
        var info := Report(m'[ip], now);
        (if info.allowed then Accepted(info, ip, Frontend) else RateLimited(info), m')
      else (Accepted(Unlimited, ip, Api), m)
  }

  // ---------------------------------------------------------------- the table, as the source keeps it

  /** The module-level `requestCounts` map and the functions that update it. */
  class RateLimiter {
    var counts: map<string, Entry>

    constructor()
      ensures counts == map[]
    {
      counts := map[];
    }

    /** `cleanOldEntries`: delete, one by one, every entry whose window opened over an hour ago. */
    method CleanOldEntries(cleanNow: int)
      modifies this
      ensures counts == Fresh(old(counts), cleanNow)
    {
      var todo := counts.Keys;
      while todo != {}
        invariant todo <= old(counts).Keys
        invariant forall k :: k in counts <==> k in old(counts) && (k in todo || !Stale(old(counts)[k], cleanNow))
        invariant forall k | k in counts :: counts[k] == old(counts)[k]
        decreases todo
      {
        var key :| key in todo;
        if Stale(counts[key], cleanNow) {
          counts := counts - {key};
        }
        todo := todo - {key};
      }
      assert counts == Fresh(old(counts), cleanNow);
    }

    /** `checkRateLimit`: clean, count this request in the IP's entry, store it, report. */
    method CheckRateLimit(ip: string, cleanNow: int, now: int) returns (info: RateLimitInfo)
      modifies this
      ensures counts == Step(old(counts), ip, cleanNow, now)
      ensures info == Report(counts[ip], now)
    {
      CleanOldEntries(cleanNow);
      ghost var kept := counts;
      var data := if ip in counts then counts[ip] else Entry(0, now);
      if now - data.resetTime > WindowMs {
        data := Entry(1, now);
      } else {
        data := data.(count := data.count + 1);
      }
      counts := counts[ip := data];
      assert data == Bumped(kept, ip, now);
      var resetInSeconds := CeilDiv(data.resetTime + WindowMs - now, 1000);
      var resetInMinutes := CeilDiv(resetInSeconds, 60);
      info := RateLimitInfo(
        data.count <= MaxRequests,
        if MaxRequests - data.count > 0 then MaxRequests - data.count else 0,
        resetInSeconds,
        resetInMinutes,
        data.count,
        MaxRequests);
    }

    /** `validateRequest`: the key check, then the rate limit for frontend callers only. */
    method ValidateRequest(h: Headers, secretKey: Option<string>, cleanNow: int, now: int) returns (v: Validation)
      modifies this
      ensures (v, counts) == Validate(old(counts), h, secretKey, cleanNow, now)
    {
      if !Truthy(secretKey) || h.apiKey != secretKey {
        return Unauthorized;
      }
      var clientIp := ClientIp(h);
      var referer := Or(h.referer, h.origin);
      var text := if Truthy(referer) then referer.value else "";
      var isFromFrontend := Contains(text, "vercel.app") || Contains(text, "localhost");
      if isFromFrontend {
        var rateLimit := CheckRateLimit(clientIp, cleanNow, now);
        if !rateLimit.allowed {
          return RateLimited(rateLimit);
        }
        return Accepted(rateLimit, clientIp, Frontend);
      }
      return Accepted(Unlimited, clientIp, Api);
    }
  }

  // ---------------------------------------------------------------- what the limiter guarantees

  /** A request only writes its own IP's entry; every other entry survives exactly when it is not stale. */
  lemma StepTouchesOnlyOwnEntry(m: map<string, Entry>, ip: string, cleanNow: int, now: int)
    ensures ip in Step(m, ip, cleanNow, now)
    ensures forall k | k != ip ::
      (k in Step(m, ip, cleanNow, now) <==> k in m && !Stale(m[k], cleanNow))
    ensures forall k | k != ip && k in Step(m, ip, cleanNow, now) :: Step(m, ip, cleanNow, now)[k] == m[k]
  {
  }

  /**
   * With one clock reading for both, eviction already does what the reset branch would:
   * the branch never fires, and the count becomes 1 in a new window exactly when the IP
   * had no entry younger than an hour, and one more otherwise.
   */
  lemma EvictionAgreesWithReset(m: map<string, Entry>, ip: string, now: int)
    ensures var data := if ip in Fresh(m, now) then Fresh(m, now)[ip] else Entry(0, now);
      !(now - data.resetTime > WindowMs)
    ensures Step(m, ip, now, now)[ip] ==
      if ip in m && !Stale(m[ip], now) then Entry(m[ip].count + 1, m[ip].resetTime) else Entry(1, now)
  {
  }

  /**
   * The IP's own entry does not depend on when `cleanOldEntries` read the clock, as long as
   * it read it no later than `checkRateLimit`: an entry the cleanup keeps but the later
   * reading finds over an hour old is reset by the reset branch instead.
   */
  lemma TwoReadingsSameEntry(m: map<string, Entry>, ip: string, cleanNow: int, now: int)
    requires cleanNow <= now
    ensures Step(m, ip, cleanNow, now)[ip] == Step(m, ip, now, now)[ip]
  {
    if ip in m && Stale(m[ip], cleanNow) {
      assert Stale(m[ip], now);
    }
  }

  /** A clock that went back between the two readings would make a difference. */
  lemma ClockBackDiffers()
    ensures var m := map["a" := Entry(5, 0)];
      && Step(m, "a", WindowMs + 1, WindowMs)["a"] == Entry(1, WindowMs)
      && Step(m, "a", WindowMs, WindowMs)["a"] == Entry(6, 0)
  {
    var m := map["a" := Entry(5, 0)];
    assert Fresh(m, WindowMs + 1) == map[];
    assert Fresh(m, WindowMs) == m;
  }

  /** The first request of an IP with no live entry counts 1, is allowed, leaves 9, and resets in an hour. */
  lemma FirstRequestCountsOne(m: map<string, Entry>, ip: string, cleanNow: int, now: int)
    requires ip !in m || Stale(m[ip], now)
    ensures Step(m, ip, cleanNow, now)[ip] == Entry(1, now)
    ensures Report(Step(m, ip, cleanNow, now)[ip], now) == RateLimitInfo(true, 9, 3600, 60, 1, 10)
  {
  }

  /** The report: allowed exactly up to ten, the remaining requests never negative, the current count. */
  lemma ReportCountsAgainstLimit(e: Entry, now: int)
    ensures Report(e, now).allowed <==> e.count <= 10
    ensures Report(e, now).remaining >= 0
    ensures Report(e, now).allowed && e.count >= 0 ==> Report(e, now).remaining + e.count == 10
    ensures !Report(e, now).allowed ==> Report(e, now).remaining == 0
    ensures Report(e, now).current == e.count && Report(e, now).limit == 10
  {
  }

  /**
   * If the stored window did not open after the request, the reset lies at most an hour
   * ahead: 0 to 3600 seconds, 0 to 60 minutes, the minutes being the seconds rounded up.
   */
  lemma ResetWithinOneHour(m: map<string, Entry>, ip: string, cleanNow: int, now: int)
    requires ip in m ==> m[ip].resetTime <= now
    ensures 0 <= Report(Step(m, ip, cleanNow, now)[ip], now).resetInSeconds <= 3600
    ensures 0 <= Report(Step(m, ip, cleanNow, now)[ip], now).resetInMinutes <= 60
    ensures var r := Report(Step(m, ip, cleanNow, now)[ip], now);
      (r.resetInMinutes - 1) * 60 < r.resetInSeconds <= r.resetInMinutes * 60
  {
    var e := Step(m, ip, cleanNow, now)[ip];
    assert e.resetTime <= now && now - e.resetTime <= WindowMs;
  }

  /** With a clock that never goes back, no entry's window opens in the future. */
  lemma StepKeepsWindowsInThePast(m: map<string, Entry>, ip: string, cleanNow: int, now: int)
    requires forall k | k in m :: m[k].resetTime <= cleanNow
    requires cleanNow <= now
    ensures forall k | k in Step(m, ip, cleanNow, now) :: Step(m, ip, cleanNow, now)[k].resetTime <= now
  {
  }

  // ---------------------------------------------------------------- a window of requests

  /** The two clock readings of one `checkRateLimit` call. */
  datatype Reading = Reading(cleanNow: int, now: int)

  /** The table after requests from one IP at the given readings. */
  function Replay(m: map<string, Entry>, ip: string, rs: seq<Reading>): map<string, Entry>
    decreases |rs|
  {
    if rs == [] then m
    else
      var last := rs[|rs| - 1];
      Step(Replay(m, ip, rs[..|rs| - 1]), ip, last.cleanNow, last.now)
  }

  /**
   * Requests from an IP with no live entry, each cleaning up no later than it counts and all
   * counted within an hour of the first, count 1, 2, 3, ... in the window the first one opened.
   */
  lemma {:induction false} WindowCounts(m: map<string, Entry>, ip: string, rs: seq<Reading>)
    requires rs != []
    requires ip !in m || Stale(m[ip], rs[0].now)
    requires forall i | 0 <= i < |rs| :: rs[i].cleanNow <= rs[i].now
    requires forall i | 0 <= i < |rs| :: rs[0].now <= rs[i].now <= rs[0].now + WindowMs
    ensures ip in Replay(m, ip, rs)
    ensures Replay(m, ip, rs)[ip] == Entry(|rs|, rs[0].now)
    decreases |rs|
  {
    if |rs| == 1 {
      FirstRequestCountsOne(m, ip, rs[0].cleanNow, rs[0].now);
    } else {
      var p := rs[..|rs| - 1];
      WindowCounts(m, ip, p);
      var last := rs[|rs| - 1];
      TwoReadingsSameEntry(Replay(m, ip, p), ip, last.cleanNow, last.now);
    }
  }

  /** Within such a window the first ten requests are allowed and every later one is refused. */
  lemma TenPerWindow(m: map<string, Entry>, ip: string, rs: seq<Reading>)
    requires rs != []
    requires ip !in m || Stale(m[ip], rs[0].now)
    requires forall i | 0 <= i < |rs| :: rs[i].cleanNow <= rs[i].now
    requires forall i | 0 <= i < |rs| :: rs[0].now <= rs[i].now <= rs[0].now + WindowMs
    ensures Report(Replay(m, ip, rs)[ip], rs[|rs| - 1].now).allowed <==> |rs| <= 10
    ensures Report(Replay(m, ip, rs)[ip], rs[|rs| - 1].now).current == |rs|
  {
    WindowCounts(m, ip, rs);
  }

  // ---------------------------------------------------------------- what validation guarantees

  /** A missing or empty secret, or a key that differs from it, gives 401 and leaves the table as it was. */
  lemma UnauthorizedLeavesTable(m: map<string, Entry>, h: Headers, secretKey: Option<string>, cleanNow: int, now: int)
    ensures !Authorized(h, secretKey) ==> Validate(m, h, secretKey, cleanNow, now) == (Unauthorized, m)
    ensures Validate(m, h, secretKey, cleanNow, now).0.Status() == 401 <==> !Authorized(h, secretKey)
  {
  }

  /** Callers outside the frontend are never limited: the fixed record, and the table untouched. */
  lemma OnlyFrontendIsLimited(m: map<string, Entry>, h: Headers, secretKey: Option<string>, cleanNow: int, now: int)
    requires Authorized(h, secretKey) && !FromFrontend(h)
    ensures Validate(m, h, secretKey, cleanNow, now) == (Accepted(Unlimited, ClientIp(h), Api), m)
  {
  }

  /**
   * A frontend request is counted whether or not it is refused; it gets 429 exactly when
   * its IP's count passes ten, and its verdict carries the report of that count.
   */
  lemma FrontendIsCounted(m: map<string, Entry>, h: Headers, secretKey: Option<string>, cleanNow: int, now: int)
    requires Authorized(h, secretKey) && FromFrontend(h)
    ensures Validate(m, h, secretKey, cleanNow, now).1 == Step(m, ClientIp(h), cleanNow, now)
    ensures var (v, m') := Validate(m, h, secretKey, cleanNow, now);
      && (v.Status() == 429 <==> m'[ClientIp(h)].count > 10)
      && (v.RateLimited? || v.Accepted?)
      && v.rateLimit == Report(m'[ClientIp(h)], now)
  {
  }
}
