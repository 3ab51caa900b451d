/** The fixed-window per-client rate limiter of lib/rate-limit.ts: a map from
    client key to a request count and the instant its window ends. The clock
    is the parameter `now` (epoch milliseconds). */
module RateLimit {
  import opened Wrappers
  import Text

  /** RATE_LIMIT: at most 100 admitted requests per window of one minute. */
  const MaxRequests: int := 100
  const WindowMs: int := 60 * 1000

  datatype Window = Window(count: int, resetTime: int)

  /** The bound every stored window keeps: it has admitted at least one
      request and never more than the maximum. */
  predicate WindowsValid(records: map<string, Window>) {
    forall k :: k in records ==> 1 <= records[k].count <= MaxRequests
  }

  /** Whether a request is admitted and the records afterwards. */
  datatype Decision = Decision(allowed: bool, records: map<string, Window>)

  /** True when `ip` has a window that has not yet ended at `now`; the window
      still runs at the instant equal to its reset time. */
  predicate InActiveWindow(records: map<string, Window>, ip: string, now: int) {
    ip in records && now <= records[ip].resetTime
  }

  /** `checkRateLimit(ip)` at instant `now`. Without an active window a fresh
      one is opened with a count of one; inside one the request is rejected
      once the count has reached the maximum and counted otherwise. Only the
      record of `ip` can change. */
  function Admit(records: map<string, Window>, ip: string, now: int): (d: Decision)
    ensures d.allowed <==> !(InActiveWindow(records, ip, now) && records[ip].count >= MaxRequests)
    ensures !InActiveWindow(records, ip, now) ==> d.records == records[ip := Window(1, now + WindowMs)]
    ensures InActiveWindow(records, ip, now) && !d.allowed ==> d.records == records
    ensures InActiveWindow(records, ip, now) && d.allowed ==>
              d.records == records[ip := Window(records[ip].count + 1, records[ip].resetTime)]
    ensures d.records.Keys == records.Keys + {ip}
    ensures forall k :: k in records && k != ip ==> d.records[k] == records[k]
  {
    if ip !in records || now > records[ip].resetTime then
      Decision(true, records[ip := Window(1, now + WindowMs)])
    else if records[ip].count >= MaxRequests then
      Decision(false, records)
    else
      Decision(true, records[ip := Window(records[ip].count + 1, records[ip].resetTime)])
  }

  /** Every call keeps each stored count between one and the maximum. */
  lemma AdmitKeepsWindowsValid(records: map<string, Window>, ip: string, now: int)
    requires WindowsValid(records)
    ensures WindowsValid(Admit(records, ip, now).records)
  {
  }

  /** The outcomes of successive calls for one client at the given instants,
      and the records after the last of them. */
  function Replay(records: map<string, Window>, ip: string, times: seq<int>): (r: (seq<bool>, map<string, Window>))
    ensures |r.0| == |times|
    decreases |times|
  {
    if times == [] then ([], records)
    else
      var d := Admit(records, ip, times[0]);
      var rest := Replay(d.records, ip, times[1..]);
      ([d.allowed] + rest.0, rest.1)
  }

  /** Inside one window whose count is `c`, the `i`-th further call is admitted
      exactly when `c + i` is still below the maximum. */
  lemma {:induction false} ReplayInsideWindow(records: map<string, Window>, ip: string, c: int, reset: int, times: seq<int>)
    requires ip in records && records[ip] == Window(c, reset) && 1 <= c <= MaxRequests
    requires forall i :: 0 <= i < |times| ==> times[i] <= reset
    ensures forall i :: 0 <= i < |times| ==> Replay(records, ip, times).0[i] == (c + i < MaxRequests)
    decreases |times|
  {
    if times != [] {
      var d := Admit(records, ip, times[0]);
      var c' := if c < MaxRequests then c + 1 else c;
      assert d.records[ip] == Window(c', reset);
      ReplayInsideWindow(d.records, ip, c', reset, times[1..]);
      var rs := Replay(records, ip, times).0;
      forall i | 0 <= i < |times| ensures rs[i] == (c + i < MaxRequests) {
        if i > 0 {
          assert rs[i] == Replay(d.records, ip, times[1..]).0[i - 1];
          assert (c' + (i - 1) < MaxRequests) == (c + i < MaxRequests);
        }
      }
    }
  }

  /** A client without a record gets exactly `MaxRequests` admissions when all
      its calls fall at or before the end of the window its first call opens;
      the next call is rejected. */
  lemma BurstOfMaxRequestsThenReject(records: map<string, Window>, ip: string, times: seq<int>)
    requires ip !in records
    requires |times| == MaxRequests + 1
    requires forall i :: 0 <= i < |times| ==> times[i] <= times[0] + WindowMs
    ensures forall i :: 0 <= i < MaxRequests ==> Replay(records, ip, times).0[i]
    ensures !Replay(records, ip, times).0[MaxRequests]
  {
    var d := Admit(records, ip, times[0]);
    assert d.records[ip] == Window(1, times[0] + WindowMs);
    ReplayInsideWindow(d.records, ip, 1, times[0] + WindowMs, times[1..]);
    var rs := Replay(records, ip, times).0;
    forall i | 1 <= i < |times| ensures rs[i] == (i < MaxRequests) {
      assert rs[i] == Replay(d.records, ip, times[1..]).0[i - 1];
    }
  }

  /** Once its window has ended, a client is admitted again with a fresh
      window of count one, however many requests the old window saw. */
  lemma AdmittedAfterWindowEnds(records: map<string, Window>, ip: string, now: int)
    requires ip in records && now > records[ip].resetTime
    ensures Admit(records, ip, now) == Decision(true, records[ip := Window(1, now + WindowMs)])
  {
  }

  /** `getClientIP`: the first comma-separated element of a non-empty
      `x-forwarded-for`, trimmed; else a non-empty `x-real-ip`; else the key
      shared by all unattributed callers. An absent header is `None`. */
  function ClientKey(forwardedFor: Option<string>, realIp: Option<string>): (key: string)
    ensures forwardedFor.Some? && forwardedFor.value != [] ==>
              key == Text.Trim(Text.FirstField(forwardedFor.value, ','))
    ensures forwardedFor.Some? && forwardedFor.value != [] ==> ',' !in key
    ensures (forwardedFor.None? || forwardedFor.value == []) && realIp.Some? && realIp.value != [] ==>
              key == realIp.value
    ensures (forwardedFor.None? || forwardedFor.value == []) && (realIp.None? || realIp.value == []) ==>
              key == "default"
  {
    if forwardedFor.Some? && forwardedFor.value != [] then
      var k := Text.Trim(Text.FirstField(forwardedFor.value, ','));
      assert forall i :: 0 <= i < |k| ==> k[i] != ',' by {
        var f := Text.FirstField(forwardedFor.value, ',');
        var lo := |f| - |Text.TrimStart(f)|;
        forall i | 0 <= i < |k| ensures k[i] != ',' {
          assert k[i] == f[lo + i];
        }
      }
      k
    else if realIp.Some? && realIp.value != [] then
      realIp.value
    else
      "default"
  }

  /** The per-process `rateLimitMap` with `checkRateLimit`. */
  class Limiter {
    var records: map<string, Window>

    ghost predicate Valid()
      reads this
    {
      WindowsValid(records)
    }

    constructor ()
      ensures Valid() && records == map[]
    {
      records := map[];
    }

    /** `checkRateLimit(ip)` at instant `now`. */
    method Check(ip: string, now: int) returns (allowed: bool)
      requires Valid()
      modifies this
      ensures Valid()
      ensures Admit(old(records), ip, now) == Decision(allowed, records)
    {
      if ip !in records || now > records[ip].resetTime {
        records := records[ip := Window(1, now + WindowMs)];
        return true;
      }
      if records[ip].count >= MaxRequests {
        return false;
      }
      records := records[ip := Window(records[ip].count + 1, records[ip].resetTime)];
      return true;
    }
  }
}
