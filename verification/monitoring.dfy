/**
 * The server's in-process monitoring state: the level-filtered log buffer
 * that keeps the last 1000 entries, the request counters and the window of
 * the last 100 response times, the redaction of log metadata, and the uptime
 * text.
 */
module Monitoring {
  import opened Base
  import opened JsText

  // ----- bounded windows -----

  /** The last `n` elements of `h` (all of them when there are fewer). */
  function LastN<T>(h: seq<T>, n: nat): (r: seq<T>)
    ensures |r| == if |h| < n then |h| else n
  {
    if |h| <= n then h else h[|h| - n..]
  }

  /** Appending to a window of the last `n` and dropping the oldest element
      when it overflows gives the window of the longer history. */
  lemma {:induction false} LastNPush<T>(h: seq<T>, x: T, n: nat)
    ensures var w := LastN(h, n) + [x];
      LastN(h + [x], n) == if |w| > n then w[1..] else w
  {
    if n > 0 && |h| + 1 > n && |h| > n {
      assert (h + [x])[|h| + 1 - n..] == h[|h| - n..][1..] + [x];
    } else if n > 0 && |h| + 1 > n {
      assert (h + [x])[|h| + 1 - n..] == (h + [x])[1..];
    }
  }

  /** A buffer that keeps the most recent `capacity` entries: push, then shift
      once when over capacity. The ghost history is everything ever pushed. */
  class BoundedWindow<T> {
    const capacity: nat
    var entries: seq<T>
    ghost var history: seq<T>

    ghost predicate Valid()
      reads this
    {
      entries == LastN(history, capacity)
    }

    constructor (capacity: nat)
      ensures this.capacity == capacity && entries == [] && history == [] && Valid()
    {
      this.capacity := capacity;
      entries := [];
      history := [];
    }

    method Push(x: T)
      requires Valid()
      modifies this
      ensures Valid() && history == old(history) + [x]
      ensures |entries| <= capacity
      ensures capacity > 0 ==> entries[|entries| - 1] == x
    {
      LastNPush(history, x, capacity);
      entries := entries + [x];
      if |entries| > capacity {
        entries := entries[1..];
      }
      history := history + [x];
    }
  }

  const MAX_LOGS: nat := 1000
  const MAX_RESPONSE_TIMES: nat := 100

  // ----- log levels -----

  datatype Level = Debug | Info | Warn | Error

  function Rank(l: Level): nat {
    match l
    case Debug => 0
    case Info => 1
    case Warn => 2
    case Error => 3
  }

  /** `LOG_LEVELS[name.toUpperCase()]`; None for a name that is not a level. */
  function ParseLevel(name: string): Option<Level> {
    var lower := ToLowerAscii(name);
    if lower == "debug" then Some(Debug)
    else if lower == "info" then Some(Info)
    else if lower == "warn" then Some(Warn)
    else if lower == "error" then Some(Error)
    else None
  }

  /** The filter of `_log`: an entry is dropped only when its level ranks below
      the configured one; an unrecognised configured level compares as
      undefined, so nothing is dropped. */
  function ShouldLog(level: Level, configured: string): (b: bool)
    ensures ParseLevel(configured).None? ==> b
    ensures level == Error ==> b
    ensures ParseLevel(configured) == Some(Debug) ==> b
  {
    var c := ParseLevel(configured);
    !(c.Some? && Rank(level) < Rank(c.value))
  }

  /** The filter is monotone: raising an entry's level never drops it. */
  lemma {:induction false} ShouldLogMonotone(a: Level, b: Level, configured: string)
    requires Rank(a) <= Rank(b) && ShouldLog(a, configured)
    ensures ShouldLog(b, configured)
  {
  }

  // ----- metadata redaction -----

  const REDACTED: string := "***REDACTED***"

  /** Key is sensitive when its lower-case form contains any of these words. */
  predicate Sensitive(key: string) {
    var k := ToLowerAscii(key);
    Includes(k, "password") || Includes(k, "token") || Includes(k, "authorization")
    || Includes(k, "secret") || Includes(k, "key") || Includes(k, "access_token")
  }

  /** `sanitizeMetadata` on an object: a shallow copy with every sensitive
      key's value replaced. */
  function SanitizeMetadata(metadata: map<string, string>): (r: map<string, string>)
    ensures r.Keys == metadata.Keys
    ensures forall k :: k in r && !Sensitive(k) ==> r[k] == metadata[k]
    ensures forall k :: k in r && Sensitive(k) ==> r[k] == REDACTED
  {
    map k | k in metadata :: if Sensitive(k) then REDACTED else metadata[k]
  }

  /** Redacting twice is redacting once. */
  lemma {:induction false} SanitizeIdempotent(metadata: map<string, string>)
    ensures SanitizeMetadata(SanitizeMetadata(metadata)) == SanitizeMetadata(metadata)
  {
  }

  /** Matching is on substrings of the lower-cased key, so header-style names
      are caught whatever their case, and so is any key that merely contains
      `key`, such as `monkey`. */
  lemma {:induction false} SensitiveExamples()
    ensures Sensitive("Authorization")
    ensures Sensitive("monkey")
    ensures !Sensitive("id")
  {
    assert OccursAt(ToLowerAscii("Authorization"), "authorization", 0);
    assert OccursAt(ToLowerAscii("monkey"), "key", 3);
  }

  // ----- logger and metrics -----

  datatype LogEntry = LogEntry(timestamp: int, level: Level, message: string, metadata: map<string, string>)

  class Logger {
    const buffer: BoundedWindow<LogEntry>
    var configuredLevel: string

    constructor (configuredLevel: string)
      ensures this.configuredLevel == configuredLevel && fresh(buffer)
      ensures buffer.capacity == MAX_LOGS && buffer.entries == [] && buffer.Valid()
    {
      buffer := new BoundedWindow(MAX_LOGS);
      this.configuredLevel := configuredLevel;
    }

    /** `_log`: filter by level, then push the entry with its metadata redacted. */
    method Log(level: Level, message: string, metadata: map<string, string>, now: int)
      requires buffer.Valid()
      modifies buffer
      ensures buffer.Valid()
      ensures ShouldLog(level, configuredLevel) ==>
        buffer.history == old(buffer.history) + [LogEntry(now, level, message, SanitizeMetadata(metadata))]
      ensures !ShouldLog(level, configuredLevel) ==>
        buffer.history == old(buffer.history) && buffer.entries == old(buffer.entries)
    {
      if !ShouldLog(level, configuredLevel) {
        return;
      }
      buffer.Push(LogEntry(now, level, message, SanitizeMetadata(metadata)));
    }
  }

  /** Occurrences of `x` in `s`. */
  function Count<T(==)>(s: seq<T>, x: T): nat
  {
    if s == [] then 0 else Count(s[..|s| - 1], x) + (if s[|s| - 1] == x then 1 else 0)
  }

  /** The request counters of the metrics middleware. The ghost `paths` and
      `statuses` record every request seen. */
  class Metrics {
    var total: nat
    var byEndpoint: map<string, nat>
    var byStatusCode: map<int, nat>
    const responseTimes: BoundedWindow<int>
    ghost var paths: seq<string>
    ghost var statuses: seq<int>

    ghost predicate Valid()
      reads this, responseTimes
    {
      && total == |paths|
      && (forall p :: p in byEndpoint ==> byEndpoint[p] == Count(paths, p))
      && (forall p :: p !in byEndpoint ==> Count(paths, p) == 0)
      && (forall c :: c in byStatusCode ==> byStatusCode[c] == Count(statuses, c))
      && (forall c :: c !in byStatusCode ==> Count(statuses, c) == 0)
      && responseTimes.capacity == MAX_RESPONSE_TIMES
      && responseTimes.Valid()
    }

    constructor ()
      ensures Valid() && total == 0 && fresh(responseTimes)
      ensures paths == [] && statuses == [] && byEndpoint == map[] && byStatusCode == map[]
      ensures responseTimes.entries == [] && responseTimes.history == []
    {
      total := 0;
      byEndpoint := map[];
      byStatusCode := map[];
      paths := [];
      statuses := [];
      responseTimes := new BoundedWindow(MAX_RESPONSE_TIMES);
    }

    /** On arrival: count the request overall and for its path. */
    method OnRequest(path: string)
      requires Valid()
      modifies this
      ensures Valid() && paths == old(paths) + [path] && statuses == old(statuses)
      ensures total == old(total) + 1
      ensures byEndpoint == old(byEndpoint)[path := if path in old(byEndpoint) then old(byEndpoint)[path] + 1 else 1]
      ensures byStatusCode == old(byStatusCode)
    {
      total := total + 1;
      byEndpoint := byEndpoint[path := (if path in byEndpoint then byEndpoint[path] else 0) + 1];
      paths := paths + [path];
      assert paths[..|paths| - 1] == old(paths);
    }

    /** On finish: record the response time in the window and count the status. */
    method OnFinish(duration: int, statusCode: int)
      requires Valid()
      modifies this, responseTimes
      ensures Valid() && statuses == old(statuses) + [statusCode] && paths == old(paths)
      ensures responseTimes.history == old(responseTimes.history) + [duration]
      ensures |responseTimes.entries| <= MAX_RESPONSE_TIMES
      ensures total == old(total) && byEndpoint == old(byEndpoint)
    {
      responseTimes.Push(duration);
      byStatusCode := byStatusCode[statusCode := (if statusCode in byStatusCode then byStatusCode[statusCode] else 0) + 1];
      statuses := statuses + [statusCode];
      assert statuses[..|statuses| - 1] == old(statuses);
    }
  }

  // ----- uptime -----

  /** The fields `formatUptime` shows, by the largest non-zero unit. */
  datatype Uptime =
    | DaysHoursMinutes(d: nat, h: nat, m: nat)
    | HoursMinutesSeconds(h: nat, m: nat, s: nat)
    | MinutesSeconds(m: nat, s: nat)
    | SecondsOnly(s: nat)

  function Breakdown(ms: nat): Uptime {
    var seconds := ms / 1000;
    var minutes := seconds / 60;
    var hours := minutes / 60;
    var days := hours / 24;
    if days > 0 then DaysHoursMinutes(days, hours % 24, minutes % 60)
    else if hours > 0 then HoursMinutesSeconds(hours, minutes % 60, seconds % 60)
    else if minutes > 0 then MinutesSeconds(minutes, seconds % 60)
    else SecondsOnly(seconds)
  }

  /** The duration the text stands for, in seconds. */
  function ShownSeconds(u: Uptime): nat {
    match u
    case DaysHoursMinutes(d, h, m) => d * 86400 + h * 3600 + m * 60
    case HoursMinutesSeconds(h, m, s) => h * 3600 + m * 60 + s
    case MinutesSeconds(m, s) => m * 60 + s
    case SecondsOnly(s) => s
  }

  function FormatUptime(ms: nat): string {
    match Breakdown(ms)
    case DaysHoursMinutes(d, h, m) => NatToString(d) + "d " + NatToString(h) + "h " + NatToString(m) + "m"
    case HoursMinutesSeconds(h, m, s) => NatToString(h) + "h " + NatToString(m) + "m " + NatToString(s) + "s"
    case MinutesSeconds(m, s) => NatToString(m) + "m " + NatToString(s) + "s"
    case SecondsOnly(s) => NatToString(s) + "s"
  }

  /** The text is exact to the second below one day and drops the seconds
      beyond: it never overstates the uptime and understates it by less than a
      minute. Every field after the first stays below its unit's range. */
  lemma {:induction false} BreakdownAccurate(ms: nat)
    ensures var u := Breakdown(ms);
      && ShownSeconds(u) <= ms / 1000
      && (u.DaysHoursMinutes? ==> ms / 1000 < ShownSeconds(u) + 60 && u.d > 0 && u.h < 24 && u.m < 60)
      && (!u.DaysHoursMinutes? ==> ShownSeconds(u) == ms / 1000)
      && (u.HoursMinutesSeconds? ==> 0 < u.h < 24 && u.m < 60 && u.s < 60)
      && (u.MinutesSeconds? ==> 0 < u.m < 60 && u.s < 60)
      && (u.SecondsOnly? ==> u.s < 60)
  {
    var seconds := ms / 1000;
    var minutes := seconds / 60;
    var hours := minutes / 60;
    var days := hours / 24;
    assert seconds == minutes * 60 + seconds % 60;
    assert minutes == hours * 60 + minutes % 60;
    assert hours == days * 24 + hours % 24;
  }
}
