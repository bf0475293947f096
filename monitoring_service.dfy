/**
 * The metrics accumulator of the triage service: a log of recent requests
 * capped at 1000 entries, an error log that is never trimmed, a request
 * counter, a count of requests per urgency label and a running mean latency.
 * Persistence to the metrics file is not part of this model; the state lives
 * in memory only.
 */
module Monitoring {
  import opened Wrappers
  import opened Seqs

  /** The `status` argument: the handlers pass the strings "success" and "error", and also plain booleans. */
  datatype Status = Text(text: string) | Flag(flag: bool)

  /** One logged request. Latencies are seconds; the timestamp is an opaque ISO string. */
  datatype RequestLog = RequestLog(
    endpoint: string, latency: real, status: Status, urgencyLevel: Option<string>, timestamp: string)

  /** How many requests stay in memory. */
  const RequestCap: nat := 1000
  /** How many of the latest requests the recent statistics cover. */
  const RecentWindow: nat := 100

  /** `status == "error"`: only the string compares equal, never a boolean. */
  predicate IsError(r: RequestLog) {
    r.status == Text("error")
  }

  /** Python truthiness of the optional urgency label: present and not empty. */
  predicate IsTruthy(level: Option<string>) {
    level.Some? && level.value != ""
  }

  /** The error log that a sequence of requests produces. */
  function ErrorsOf(log: seq<RequestLog>): seq<RequestLog> {
    Filter(log, IsError)
  }

  /** Add one to the count of `key`, starting from zero when it is absent. */
  function Bump(counts: map<string, nat>, key: string): (r: map<string, nat>)
    ensures r.Keys == counts.Keys + {key}
    ensures key in counts ==> r[key] == counts[key] + 1
    ensures key !in counts ==> r[key] == 1
    ensures forall k | k in counts && k != key :: r[k] == counts[k]
  {
    counts[key := if key in counts then counts[key] + 1 else 1]
  }

  /** The urgency distribution built up by logging `log` in order. */
  function Distribution(log: seq<RequestLog>): map<string, nat>
    decreases |log|
  {
    if log == [] then map[]
    else
      var d := Distribution(log[..|log| - 1]);
      var level := log[|log| - 1].urgencyLevel;
      if IsTruthy(level) then Bump(d, level.value) else d
  }

  /** The test "this request was logged with label `level`". */
  function HasLevel(level: string): RequestLog -> bool {
    (r: RequestLog) => r.urgencyLevel == Some(level)
  }

  /** An independent count: how many requests carry the label `level`. */
  function LevelCount(log: seq<RequestLog>, level: string): nat {
    |Filter(log, HasLevel(level))|
  }

  /**
   * The distribution counts every non-empty label exactly as often as it was
   * logged, and holds no key for a label that was never logged.
   */
  lemma {:induction false} DistributionCounts(log: seq<RequestLog>, level: string)
    requires level != ""
    ensures level in Distribution(log) <==> LevelCount(log, level) > 0
    ensures level in Distribution(log) ==> Distribution(log)[level] == LevelCount(log, level)
    decreases |log|
  {
    if log != [] {
      var init := log[..|log| - 1];
      var x := log[|log| - 1];
      DistributionCounts(init, level);
      assert log == init + [x];
      FilterSnoc(init, x, HasLevel(level));
    }
  }

  /** The empty label is never a key: a falsy label is not counted. */
  lemma {:induction false} NoEmptyLevel(log: seq<RequestLog>)
    ensures "" !in Distribution(log)
    decreases |log|
  {
    if log != [] {
      NoEmptyLevel(log[..|log| - 1]);
    }
  }

  /** `sum(r["latency"] for r in s)`. */
  function TotalLatency(s: seq<RequestLog>): real
    decreases |s|
  {
    if s == [] then 0.0 else TotalLatency(s[..|s| - 1]) + s[|s| - 1].latency
  }

  /** `sum(latencies) / len(latencies)`. */
  function MeanLatency(s: seq<RequestLog>): real
    requires s != []
  {
    TotalLatency(s) / |s| as real
  }

  /** Every latency between `lo` and `hi` bounds the total by `|s|` times each. */
  lemma {:induction false} TotalLatencyBounds(s: seq<RequestLog>, lo: real, hi: real)
    requires forall k | 0 <= k < |s| :: lo <= s[k].latency <= hi
    ensures |s| as real * lo <= TotalLatency(s) <= |s| as real * hi
    decreases |s|
  {
    if s != [] {
      TotalLatencyBounds(s[..|s| - 1], lo, hi);
    }
  }

  /** The mean lies between the smallest and the largest latency. */
  lemma MeanLatencyBounds(s: seq<RequestLog>, lo: real, hi: real)
    requires s != []
    requires forall k | 0 <= k < |s| :: lo <= s[k].latency <= hi
    ensures lo <= MeanLatency(s) <= hi
  {
    TotalLatencyBounds(s, lo, hi);
    var n := |s| as real;
    assert MeanLatency(s) * n == TotalLatency(s);
  }

  /** The in-memory metrics: the fields `log_request` updates. */
  datatype Counters = Counters(
    requests: seq<RequestLog>,
    errors: seq<RequestLog>,
    distribution: map<string, nat>,
    total: nat,
    average: real)

  /** The metrics before anything is logged. */
  const Initial := Counters([], [], map[], 0, 0.0)

  /**
   * One `log_request` update of the metrics: one more request is counted, and
   * the request list, never longer than the cap, ends with the new request.
   */
  function Step(c: Counters, entry: RequestLog): (d: Counters)
    ensures d.total == c.total + 1
    ensures |d.requests| == Min(|c.requests| + 1, RequestCap)
    ensures d.requests[|d.requests| - 1] == entry
  {
    var kept := c.requests + [entry];
    Counters(
      Last(kept, RequestCap),
      if IsError(entry) then c.errors + [entry] else c.errors,
      if IsTruthy(entry.urgencyLevel) then Bump(c.distribution, entry.urgencyLevel.value) else c.distribution,
      c.total + 1,
      MeanLatency(kept))
  }

  /**
   * What one update promises: the counter rises by one; the request list ends
   * with the new request and is the most recent (at most 1000) requests in
   * order; the error log grows by that request exactly when its status is the
   * string "error" and loses nothing; a truthy label gains one count and no
   * other count changes; and the average is taken before trimming.
   */
  lemma StepSpec(c: Counters, entry: RequestLog)
    ensures Step(c, entry).total == c.total + 1
    ensures var r := Step(c, entry).requests; var all := c.requests + [entry];
      && |r| == Min(|all|, RequestCap) && r == all[|all| - |r|..]
      && r[|r| - 1] == entry
    ensures Step(c, entry).errors == c.errors + (if entry.status == Text("error") then [entry] else [])
    ensures var d := Step(c, entry).distribution; var level := entry.urgencyLevel;
      && (IsTruthy(level) ==>
            && d.Keys == c.distribution.Keys + {level.value}
            && d[level.value] == (if level.value in c.distribution then c.distribution[level.value] else 0) + 1)
      && (forall k | k in c.distribution && !(IsTruthy(level) && k == level.value) :: k in d && d[k] == c.distribution[k])
      && (!IsTruthy(level) ==> d == c.distribution)
    ensures Step(c, entry).average == MeanLatency(c.requests + [entry])
  {
  }

  /** The metrics after logging `log` in order, one update per request. */
  function Replay(log: seq<RequestLog>): Counters
    decreases |log|
  {
    if log == [] then Initial else Step(Replay(log[..|log| - 1]), log[|log| - 1])
  }

  /** Logging one more request applies one more update. */
  lemma ReplaySnoc(log: seq<RequestLog>, entry: RequestLog)
    ensures Replay(log + [entry]) == Step(Replay(log), entry)
  {
    assert (log + [entry])[..|log|] == log;
  }

  /** One update keeps the request list equal to the last 1000 requests. */
  lemma ReplayRequestsSnoc(init: seq<RequestLog>, entry: RequestLog)
    requires Replay(init).requests == Last(init, RequestCap)
    ensures Replay(init + [entry]).requests == Last(init + [entry], RequestCap)
  {
    ReplaySnoc(init, entry);
    LastOfLastAppend(init, entry, RequestCap);
  }

  /** The replayed request list is the last 1000 requests logged. */
  lemma {:induction false} ReplayRequests(log: seq<RequestLog>)
    ensures Replay(log).requests == Last(log, RequestCap)
    decreases |log|
  {
    if log != [] {
      var init, entry := log[..|log| - 1], log[|log| - 1];
      ReplayRequests(init);
      ReplayRequestsSnoc(init, entry);
      SplitLast(log);
    }
  }

  /** One update keeps the error log equal to the errors logged. */
  lemma ReplayErrorsSnoc(init: seq<RequestLog>, entry: RequestLog)
    requires Replay(init).errors == ErrorsOf(init)
    ensures Replay(init + [entry]).errors == ErrorsOf(init + [entry])
  {
    ReplaySnoc(init, entry);
    FilterSnoc(init, entry, IsError);
  }

  /** The replayed error log holds every request logged with status "error". */
  lemma {:induction false} ReplayErrors(log: seq<RequestLog>)
    ensures Replay(log).errors == ErrorsOf(log)
    decreases |log|
  {
    if log != [] {
      var init, entry := log[..|log| - 1], log[|log| - 1];
      ReplayErrors(init);
      ReplayErrorsSnoc(init, entry);
      SplitLast(log);
    }
  }

  /** The replayed distribution is the label count of the requests logged. */
  lemma {:induction false} ReplayDistribution(log: seq<RequestLog>)
    ensures Replay(log).distribution == Distribution(log)
    decreases |log|
  {
    if log != [] {
      ReplayDistribution(log[..|log| - 1]);
    }
  }

  /** The replayed counter is the number of requests logged. */
  lemma {:induction false} ReplayTotal(log: seq<RequestLog>)
    ensures Replay(log).total == |log|
    decreases |log|
  {
    if log != [] {
      ReplayTotal(log[..|log| - 1]);
    }
  }

  /** After one update the average covers the 1000 requests kept before it and the new one. */
  lemma ReplayAverageSnoc(init: seq<RequestLog>, entry: RequestLog)
    ensures Replay(init + [entry]).average == MeanLatency(Last(init + [entry], RequestCap + 1))
  {
    ReplaySnoc(init, entry);
    ReplayRequests(init);
    LastAppend(init, entry, RequestCap);
  }

  /**
   * The replayed average is the mean latency of the last 1001 requests: the
   * newest one plus the 1000 kept before it.
   */
  lemma ReplayAverage(log: seq<RequestLog>)
    ensures Replay(log).average == if log == [] then 0.0 else MeanLatency(Last(log, RequestCap + 1))
  {
    if log != [] {
      var init, entry := log[..|log| - 1], log[|log| - 1];
      ReplayAverageSnoc(init, entry);
      SplitLast(log);
    }
  }

  /**
   * What the replayed metrics mean: the counter is the number of requests,
   * the request list the last 1000 of them, the error log all of their errors,
   * the distribution their label counts, and the average the mean latency of
   * the last 1001.
   */
  lemma ReplayMeaning(log: seq<RequestLog>)
    ensures Replay(log).total == |log|
    ensures Replay(log).requests == Last(log, RequestCap)
    ensures Replay(log).errors == ErrorsOf(log)
    ensures Replay(log).distribution == Distribution(log)
    ensures Replay(log).average == if log == [] then 0.0 else MeanLatency(Last(log, RequestCap + 1))
  {
    ReplayTotal(log);
    ReplayRequests(log);
    ReplayErrors(log);
    ReplayDistribution(log);
    ReplayAverage(log);
  }

  /**
   * The body of `log_request` on the metrics: append the request, count it,
   * bump its label, recompute the mean latency over the list before trimming,
   * record it as an error if its status is "error", and keep the last 1000.
   */
  method UpdateCounters(c: Counters, entry: RequestLog) returns (d: Counters)
    ensures d == Step(c, entry)
  {
    var requests := c.requests + [entry];
    var total := c.total + 1;
    var distribution := c.distribution;
    if IsTruthy(entry.urgencyLevel) {
      distribution := Bump(distribution, entry.urgencyLevel.value);
    }
    var average := MeanLatency(requests);
    var errors := c.errors;
    if entry.status == Text("error") {
      errors := errors + [entry];
    }
    if |requests| > RequestCap {
      requests := requests[|requests| - RequestCap..];
    }
    assert requests == Last(c.requests + [entry], RequestCap);
    d := Counters(requests, errors, distribution, total, average);
  }

  /** What `get_metrics` returns. */
  datatype Stats = Stats(
    totalRequests: nat,
    averageLatency: real,
    recentAverageLatency: real,
    errorRate: real,
    recentErrorRate: real,
    urgencyDistribution: map<string, nat>,
    uptimeStart: string,
    lastRequest: Option<string>)

  /** The statistics reported before any request has been logged. */
  function EmptyStats(startTime: string): Stats {
    Stats(0, 0.0, 0.0, 0.0, 0.0, map[], startTime, None)
  }

  /** `count / max(total, 1)`. */
  function Rate(count: nat, total: nat): real {
    count as real / (if total < 1 then 1 else total) as real
  }

  lemma RateBounds(count: nat, total: nat)
    requires count <= total
    ensures 0.0 <= Rate(count, total) <= 1.0
  {
    var d := (if total < 1 then 1 else total) as real;
    assert Rate(count, total) * d == count as real;
  }

  class MonitoringService {
    /** The metrics dictionary, kept in memory. */
    var metrics: Counters
    /** Set once, when the default state is built. */
    const startTime: string
    /** Every request logged since start-up, oldest first. */
    ghost var log: seq<RequestLog>

    /** The metrics are what logging `log` in order produces (see `ReplayMeaning`). */
    ghost predicate Valid()
      reads this
    {
      metrics == Replay(log)
    }

    /** The default state of `_load_metrics` when there is no metrics file. */
    constructor (startTime: string)
      ensures Valid() && log == []
      ensures metrics == Counters([], [], map[], 0, 0.0)
      ensures this.startTime == startTime
    {
      metrics := Initial;
      this.startTime := startTime;
      log := [];
    }

    /** `log_request`, with the clock reading passed in as `timestamp`. */
    method LogRequest(endpoint: string, latency: real, status: Status, urgencyLevel: Option<string>, timestamp: string)
      requires Valid()
      modifies this
      ensures Valid()
      ensures var entry := RequestLog(endpoint, latency, status, urgencyLevel, timestamp);
        && log == old(log) + [entry]
        && metrics == Step(old(metrics), entry)
    {
      var entry := RequestLog(endpoint, latency, status, urgencyLevel, timestamp);
      ReplaySnoc(log, entry);
      metrics := UpdateCounters(metrics, entry);
      log := log + [entry];
    }

    /**
     * `get_metrics`: the summary of the current state. With nothing logged
     * every figure is zero; otherwise the recent figures cover the last 100
     * requests and both error rates lie in the unit interval.
     */
    function Metrics(): (m: Stats)
      reads this
      requires Valid()
      ensures m.uptimeStart == startTime
      ensures metrics.requests == [] <==> metrics.total == 0
      ensures metrics.requests == [] ==> m == EmptyStats(startTime)
      ensures metrics.requests != [] ==>
        var recent := Last(metrics.requests, RecentWindow);
        && m.totalRequests == metrics.total
        && m.averageLatency == metrics.average
        && m.recentAverageLatency == MeanLatency(recent)
        && m.errorRate == Rate(|metrics.errors|, metrics.total)
        && m.recentErrorRate == Rate(|ErrorsOf(recent)|, |recent|)
        && m.urgencyDistribution == metrics.distribution
        && m.lastRequest == Some(metrics.requests[|metrics.requests| - 1].timestamp)
      ensures 0.0 <= m.errorRate <= 1.0 && 0.0 <= m.recentErrorRate <= 1.0
    {
      ReplayMeaning(log);
      var recent := Last(metrics.requests, RecentWindow);
      if recent != [] then
        RateBounds(|metrics.errors|, metrics.total);
        RateBounds(|ErrorsOf(recent)|, |recent|);
        Stats(
          metrics.total,
          metrics.average,
          MeanLatency(recent),
          Rate(|metrics.errors|, metrics.total),
          Rate(|ErrorsOf(recent)|, |recent|),
          metrics.distribution,
          startTime,
          Some(recent[|recent| - 1].timestamp))
      else
        EmptyStats(startTime)
    }
  }

  /**
   * Over the whole history the error rate is the share of logged requests
   * whose status was the string "error", because the error log is never
   * trimmed.
   */
  lemma ErrorRateIsErrorShare(m: MonitoringService)
    requires m.Valid() && m.log != []
    ensures m.Metrics().errorRate == |ErrorsOf(m.log)| as real / |m.log| as real
  {
    ReplayMeaning(m.log);
  }
}
