/**
  The bookkeeping of `metrics_middleware`: an in-flight gauge raised before
  the inner handler runs and lowered after it completes, and, for every
  completed request, one increment of the request counter at
  `{method, endpoint, status}` and one observation of the latency histogram
  at `{method, endpoint}`. Only the observation count of the histogram is
  kept; the latency value itself is clock-based and left out.
 */
module Middleware {
  import opened Decimal
  import opened PathNormalizer

  /** Rust's `u16`, the type of `StatusCode::as_u16`. */
  newtype u16 = x: int | 0 <= x < 0x1_0000

  /** `with_label_values(&[method, endpoint, status])` of `http_requests_total`. */
  datatype CounterLabels = CounterLabels(verb: string, endpoint: string, status: string)

  /** `with_label_values(&[method, endpoint])` of `http_request_duration_seconds`. */
  datatype HistogramLabels = HistogramLabels(verb: string, endpoint: string)

  /** What the middleware keeps on its stack while the inner handler runs. */
  datatype InFlight = InFlight(verb: string, endpoint: string)

  /**
    `status.to_string()`: the value of the `status` label, a non-empty run of
    digits without a leading zero that reads back as the status.
   */
  function StatusLabel(status: u16): (text: string)
    ensures text != [] && AllDigits(text) && (1 < |text| ==> text[0] != '0')
    ensures ParseU64(text) == Some(status as nat)
  {
    ParseDecimalString(status as nat);
    DecimalString(status as nat)
  }

  /** Two status codes share a label only if they are the same code. */
  lemma StatusLabelInjective(a: u16, b: u16)
    ensures StatusLabel(a) == StatusLabel(b) <==> a == b
  {
    DecimalStringInjective(a as nat, b as nat);
  }

  /** The value of the child series at `labels`; a child not yet created reads as zero. */
  function Count<K>(series: map<K, nat>, labels: K): nat {
    if labels in series then series[labels] else 0
  }

  /**
    `with_label_values(labels).inc()` (and, for the histogram, `observe`
    as far as its count goes): the child is created on first use and goes up by one.
   */
  function Inc<K(!new)>(series: map<K, nat>, labels: K): (r: map<K, nat>)
    ensures r.Keys == series.Keys + {labels}
    ensures Count(r, labels) == Count(series, labels) + 1
    ensures forall other :: other != labels ==> Count(r, other) == Count(series, other)
  {
    series[labels := Count(series, labels) + 1]
  }

  /** Number of statuses a `u16` can take. */
  const StatusCount: nat := 0x1_0000

  /** The counter at `{method, endpoint}` summed over the statuses `lo` to `hi - 1`. */
  function StatusTotal(counter: map<CounterLabels, nat>, verb: string, endpoint: string, lo: nat, hi: nat): nat
    requires lo <= hi <= StatusCount
    decreases hi - lo
  {
    if lo == hi then 0
    else
      Count(counter, CounterLabels(verb, endpoint, StatusLabel(lo as u16)))
      + StatusTotal(counter, verb, endpoint, lo + 1, hi)
  }

  /** For every method and endpoint, the counter summed over all statuses is the histogram's count. */
  ghost predicate CountsAgree(counter: map<CounterLabels, nat>, histogram: map<HistogramLabels, nat>) {
    forall verb, endpoint ::
      Count(histogram, HistogramLabels(verb, endpoint)) == StatusTotal(counter, verb, endpoint, 0, StatusCount)
  }

  lemma {:induction false} StatusTotalEmpty(verb: string, endpoint: string, lo: nat, hi: nat)
    requires lo <= hi <= StatusCount
    ensures StatusTotal(map[], verb, endpoint, lo, hi) == 0
    decreases hi - lo
  {
    if lo < hi {
      StatusTotalEmpty(verb, endpoint, lo + 1, hi);
    }
  }

  /**
    One increment of the counter at `{method, endpoint, status}` raises the
    status total of that method and endpoint by one, when the range holds
    `status`, and leaves every other total as it was.
   */
  lemma {:induction false} StatusTotalInc(counter: map<CounterLabels, nat>, verb: string, endpoint: string,
                                         status: u16, m: string, e: string, lo: nat, hi: nat)
    requires lo <= hi <= StatusCount
    ensures StatusTotal(Inc(counter, CounterLabels(verb, endpoint, StatusLabel(status))), m, e, lo, hi)
         == StatusTotal(counter, m, e, lo, hi) + (if m == verb && e == endpoint && lo <= status as nat < hi then 1 else 0)
    decreases hi - lo
  {
    if lo < hi {
      StatusTotalInc(counter, verb, endpoint, status, m, e, lo + 1, hi);
      StatusLabelInjective(lo as u16, status);
    }
  }

  /** Two increments raise a series by one, or by two when both hit it. */
  lemma IncTwice<K(!new)>(series: map<K, nat>, a: K, b: K)
    ensures Count(Inc(Inc(series, a), b), b) == Count(series, b) + (if a == b then 2 else 1)
  {
  }

  /** Every `status` label of the counter is the text of a `u16`. */
  ghost predicate StatusesAreU16(counter: map<CounterLabels, nat>) {
    forall labels :: labels in counter ==> exists status: u16 :: labels.status == StatusLabel(status)
  }

  /** Recording a completed request keeps every `status` label the text of a `u16`. */
  lemma RecordKeepsStatusesU16(counter: map<CounterLabels, nat>, verb: string, endpoint: string, status: u16)
    requires StatusesAreU16(counter)
    ensures StatusesAreU16(Inc(counter, CounterLabels(verb, endpoint, StatusLabel(status))))
  {
    var labels := CounterLabels(verb, endpoint, StatusLabel(status));
    assert labels.status == StatusLabel(status);
  }

  /** Recording a completed request keeps the counter and the histogram in agreement. */
  lemma RecordKeepsCountsAgree(counter: map<CounterLabels, nat>, histogram: map<HistogramLabels, nat>,
                               verb: string, endpoint: string, status: u16)
    requires CountsAgree(counter, histogram)
    ensures CountsAgree(Inc(counter, CounterLabels(verb, endpoint, StatusLabel(status))),
                        Inc(histogram, HistogramLabels(verb, endpoint)))
  {
    var counter', histogram' := Inc(counter, CounterLabels(verb, endpoint, StatusLabel(status))),
                                Inc(histogram, HistogramLabels(verb, endpoint));
    forall m, e
      ensures Count(histogram', HistogramLabels(m, e)) == StatusTotal(counter', m, e, 0, StatusCount)
    {
      StatusTotalInc(counter, verb, endpoint, status, m, e, 0, StatusCount);
    }
  }

  /**
    The instruments the middleware writes to: `active_connections`,
    `http_requests_total` and the observation counts of
    `http_request_duration_seconds`.
   */
  class Metrics {
    var activeConnections: int
    var httpRequestsTotal: map<CounterLabels, nat>
    var httpRequestDurationCount: map<HistogramLabels, nat>

    /** The requests that have passed the gauge increment and not yet reached the decrement. */
    ghost var inFlight: multiset<InFlight>

    /**
      The gauge counts exactly the requests in flight (so it is never
      negative and is back at its initial zero once all of them have
      completed), every endpoint label is a fixed point of normalization,
      every `status` label is the text of a `u16`, so that summing over the
      `u16` statuses reaches every counter series, and the counter and the
      histogram agree.
     */
    ghost predicate Valid()
      reads this
      ensures Valid() ==> 0 <= activeConnections
    {
      && activeConnections == |inFlight|
      && (forall r :: r in inFlight ==> IsNormalized(r.endpoint))
      && (forall labels :: labels in httpRequestsTotal ==> IsNormalized(labels.endpoint))
      && StatusesAreU16(httpRequestsTotal)
      && (forall labels :: labels in httpRequestDurationCount ==> IsNormalized(labels.endpoint))
      && CountsAgree(httpRequestsTotal, httpRequestDurationCount)
    }

    /** Fresh instruments: the gauge at zero and no child series. */
    constructor ()
      ensures Valid()
      ensures activeConnections == 0 && inFlight == multiset{}
      ensures httpRequestsTotal == map[] && httpRequestDurationCount == map[]
    {
      activeConnections := 0;
      httpRequestsTotal := map[];
      httpRequestDurationCount := map[];
      inFlight := multiset{};
      new;
      forall verb, endpoint
        ensures StatusTotal(map[], verb, endpoint, 0, StatusCount) == 0
      {
        StatusTotalEmpty(verb, endpoint, 0, StatusCount);
      }
    }

    /**
      The part of the middleware before the inner handler: the endpoint label
      is computed from the raw path and the gauge goes up by one.
     */
    method Begin(verb: string, path: string) returns (request: InFlight)
      requires Valid()
      modifies this
      ensures Valid()
      ensures request == InFlight(verb, Normalize(path))
      ensures activeConnections == old(activeConnections) + 1
      ensures inFlight == old(inFlight) + multiset{request}
      ensures httpRequestsTotal == old(httpRequestsTotal)
      ensures httpRequestDurationCount == old(httpRequestDurationCount)
    {
      var endpoint := Normalize(path);
      NormalizeIdempotent(path);
      activeConnections := activeConnections + 1;
      request := InFlight(verb, endpoint);
      inFlight := inFlight + multiset{request};
    }

    /**
      The part of the middleware after the inner handler has produced a
      response with `status`: one counter increment, one histogram
      observation, and the gauge back down by one.
     */
    method Finish(request: InFlight, status: u16)
      requires Valid() && request in inFlight
      modifies this
      ensures Valid()
      ensures activeConnections == old(activeConnections) - 1
      ensures inFlight == old(inFlight) - multiset{request}
      ensures httpRequestsTotal
           == Inc(old(httpRequestsTotal), CounterLabels(request.verb, request.endpoint, StatusLabel(status)))
      ensures httpRequestDurationCount
           == Inc(old(httpRequestDurationCount), HistogramLabels(request.verb, request.endpoint))
    {
      RecordKeepsCountsAgree(httpRequestsTotal, httpRequestDurationCount, request.verb, request.endpoint, status);
      RecordKeepsStatusesU16(httpRequestsTotal, request.verb, request.endpoint, status);
      httpRequestsTotal :=
        Inc(httpRequestsTotal, CounterLabels(request.verb, request.endpoint, StatusLabel(status)));
      httpRequestDurationCount :=
        Inc(httpRequestDurationCount, HistogramLabels(request.verb, request.endpoint));
      activeConnections := activeConnections - 1;
      inFlight := inFlight - multiset{request};
    }

    /**
      One completed request through the middleware, the inner handler
      answering with `status`: the gauge ends where it started, and exactly
      one counter series and one histogram series move, by one each.
     */
    method Handle(verb: string, path: string, status: u16)
      requires Valid()
      modifies this
      ensures Valid()
      ensures activeConnections == old(activeConnections) && inFlight == old(inFlight)
      ensures httpRequestsTotal
           == Inc(old(httpRequestsTotal), CounterLabels(verb, Normalize(path), StatusLabel(status)))
      ensures httpRequestDurationCount
           == Inc(old(httpRequestDurationCount), HistogramLabels(verb, Normalize(path)))
    {
      var request := Begin(verb, path);
      Finish(request, status);
    }
  }

  /** Two overlapping requests, finishing in the opposite order to the one they began in. */
  method OverlappingRequests(verb: string, path: string, other: string, status: u16)
  {
    var metrics := new Metrics();
    var first := metrics.Begin(verb, path);
    var second := metrics.Begin(verb, other);
    assert metrics.activeConnections == 2;
    metrics.Finish(second, status);
    metrics.Finish(first, status);
    assert metrics.activeConnections == 0;
    assert Normalize(path) != Normalize(other) ==>
      Count(metrics.httpRequestsTotal, CounterLabels(verb, Normalize(path), StatusLabel(status))) == 1;
    var histogram := metrics.httpRequestDurationCount;
    var series, otherSeries := HistogramLabels(verb, Normalize(path)), HistogramLabels(verb, Normalize(other));
    assert histogram == Inc(Inc(map[], otherSeries), series);
    IncTwice(map[], otherSeries, series);
    assert Normalize(path) != Normalize(other) ==> Count(histogram, series) == 1;
    assert Normalize(path) == Normalize(other) ==> Count(histogram, series) == 2;
  }
}
