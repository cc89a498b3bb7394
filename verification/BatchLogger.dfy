/** The logger of pkg/logger/logger.go that batches successful requests into summaries. */
module BatchLogger {
  import opened Common

  /** One request answered with status 200. */
  datatype Request = Request(key: string, latency: int)

  /** What a RequestMetrics object holds. */
  datatype Metrics = Metrics(count: int, total: int, min: int, max: int, avg: int)

  function Key(verb: string, endpoint: string): string {
    verb + " " + endpoint
  }

  /** Two different requests share their metrics. */
  ghost predicate Ambiguous(m1: string, m2: string) {
    exists e1: string, e2: string :: Key(m1, e1) == Key(m2, e2) && !(m1 == m2 && e1 == e2)
  }

  lemma SameKey(m1: string, e1: string, m2: string, e2: string)
    requires Key(m1, e1) == Key(m2, e2) && |m1| <= |m2|
    ensures if |m1| == |m2| then m1 == m2 && e1 == e2 else m1 + " " <= m2
  {
    var k := Key(m1, e1);
    assert m1 == k[..|m1|] && m2 == k[..|m2|];
    assert e1 == k[|m1| + 1..] && e2 == k[|m2| + 1..];
    assert m1 + " " == k[..|m1| + 1];
  }

  /** With `m` and a space in front of `m2`, the rest of `m2` can be taken for an endpoint. */
  lemma SpaceMakesAmbiguous(m1: string, m2: string)
    requires m1 + " " <= m2
    ensures Key(m1, m2[|m1| + 1..] + " ") == Key(m2, "")
  {
    assert m2 == m1 + " " + m2[|m1| + 1..];
  }

  /** Which methods can be confused: those that one of them begins with the other and a space. */
  lemma AmbiguousIff(m1: string, m2: string)
    ensures Ambiguous(m1, m2) <==> m1 + " " <= m2 || m2 + " " <= m1
  {
    if m1 + " " <= m2 {
      SpaceMakesAmbiguous(m1, m2);
    } else if m2 + " " <= m1 {
      SpaceMakesAmbiguous(m2, m1);
      assert Key(m1, "") == Key(m2, m1[|m2| + 1..] + " ");
    } else {
      forall e1: string, e2: string | Key(m1, e1) == Key(m2, e2)
        ensures m1 == m2 && e1 == e2
      {
        if |m1| <= |m2| {
          SameKey(m1, e1, m2, e2);
        } else {
          SameKey(m2, e2, m1, e1);
        }
      }
    }
  }

  lemma PrefixHasSpace(m1: string, m2: string)
    ensures m1 + " " <= m2 ==> ' ' in m2
  {
    if m1 + " " <= m2 {
      assert m2[|m1|] == ' ';
    }
  }

  /** Requests with methods that contain no space, as those of HTTP, share their metrics exactly
      when method and endpoint are the same. */
  lemma KeyIsUnambiguous(m1: string, e1: string, m2: string, e2: string)
    requires ' ' !in m1 && ' ' !in m2
    ensures Key(m1, e1) == Key(m2, e2) <==> m1 == m2 && e1 == e2
  {
    PrefixHasSpace(m1, m2);
    PrefixHasSpace(m2, m1);
    AmbiguousIff(m1, m2);
  }

  // ---- Metrics as a summary of latencies ----

  function LatenciesOf(requests: seq<Request>, key: string): seq<int> {
    if requests == [] then []
    else
      var before, last := requests[..|requests| - 1], requests[|requests| - 1];
      if last.key == key then LatenciesOf(before, key) + [last.latency] else LatenciesOf(before, key)
  }

  function Least(s: seq<int>): (m: int)
    requires s != []
    ensures m in s && forall x :: x in s ==> m <= x
  {
    if |s| == 1 then s[0]
    else
      var before, last := s[..|s| - 1], s[|s| - 1];
      assert s == before + [last];
      if last < Least(before) then last else Least(before)
  }

  function Greatest(s: seq<int>): (m: int)
    requires s != []
    ensures m in s && forall x :: x in s ==> x <= m
  {
    if |s| == 1 then s[0]
    else
      var before, last := s[..|s| - 1], s[|s| - 1];
      assert s == before + [last];
      if last > Greatest(before) then last else Greatest(before)
  }

  /** Count, total, extremes and truncated average of the latencies of one endpoint. */
  function Summary(s: seq<int>): Metrics
    requires s != []
  {
    Metrics(|s|, Sum(s), Least(s), Greatest(s), TruncDiv(Sum(s), |s|))
  }

  lemma SummarySnoc(s: seq<int>, x: int)
    requires s != []
    ensures var m, m' := Summary(s), Summary(s + [x]);
      m' == Metrics(m.count + 1, m.total + x, Min(x, m.min), Max(x, m.max), TruncDiv(m.total + x, m.count + 1))
  {
    assert (s + [x])[..|s|] == s;
  }

  lemma SummaryOne(x: int)
    ensures Summary([x]) == Metrics(1, x, x, x, TruncDiv(x, 1))
  {
    assert [x][..0] == [] && Sum([x]) == x;
  }

  /** The average, taken as often as there are latencies, makes up the total but for less than
      one nanosecond each. */
  lemma AverageMakesUpTotal(s: seq<int>)
    requires s != [] && forall x :: x in s ==> x >= 0
    ensures var m := Summary(s); m.count * m.avg <= Sum(s) < m.count * (m.avg + 1)
  {
    SumBetween(s, 0, Greatest(s));
    TruncDivDropsFraction(Sum(s), |s|);
  }

  /** The average lies between the extremes, and so does the total when scaled. */
  lemma SummaryInRange(s: seq<int>)
    requires s != []
    ensures var m := Summary(s);
      && m.count * m.min <= m.total <= m.count * m.max
      && m.min <= m.avg <= m.max
  {
    SumBetween(s, Least(s), Greatest(s));
    TruncDivBetween(Sum(s), |s|, Least(s), Greatest(s));
  }

  /** The metrics after one more request. */
  function Counted(m: map<string, Metrics>, r: Request): map<string, Metrics>
    requires r.key in m ==> m[r.key].count > 0
  {
    var one := if r.key in m then m[r.key] else Metrics(0, 0, r.latency, r.latency, 0);
    m[r.key := Metrics(one.count + 1, one.total + r.latency, Min(r.latency, one.min), Max(r.latency, one.max),
                       TruncDiv(one.total + r.latency, one.count + 1))]
  }

  /** The metrics of a batch of requests, counted one by one. */
  function MetricsOf(requests: seq<Request>): (m: map<string, Metrics>)
    ensures forall key :: key in m ==> m[key].count > 0
  {
    if requests == [] then map[] else Counted(MetricsOf(requests[..|requests| - 1]), requests[|requests| - 1])
  }

  lemma MetricsSnoc(requests: seq<Request>, r: Request)
    ensures MetricsOf(requests + [r]) == Counted(MetricsOf(requests), r)
  {
    assert (requests + [r])[..|requests|] == requests;
  }

  /** Counted one by one, the metrics are the summary of each endpoint's latencies, and there
      are entries for exactly the endpoints that were requested. */
  lemma {:induction false} MetricsAreSummaries(requests: seq<Request>, key: string)
    ensures key in MetricsOf(requests) <==> LatenciesOf(requests, key) != []
    ensures key in MetricsOf(requests) ==> MetricsOf(requests)[key] == Summary(LatenciesOf(requests, key))
  {
    if requests == [] {
    } else {
      var before, last := requests[..|requests| - 1], requests[|requests| - 1];
      MetricsAreSummaries(before, key);
      if last.key == key {
        var latencies := LatenciesOf(before, key);
        if latencies == [] {
          SummaryOne(last.latency);
          assert [] + [last.latency] == [last.latency];
        } else {
          SummarySnoc(latencies, last.latency);
        }
      }
    }
  }

  /** Every endpoint of a batch has Count * Min <= TotalTime <= Count * Max and its average
      between its extremes. */
  lemma MetricsInRange(requests: seq<Request>, key: string)
    requires key in MetricsOf(requests)
    ensures var m := MetricsOf(requests)[key];
      && m.count > 0
      && m.count * m.min <= m.total <= m.count * m.max
      && m.min <= m.avg <= m.max
  {
    MetricsAreSummaries(requests, key);
    SummaryInRange(LatenciesOf(requests, key));
  }

  // ---- Counts over all endpoints ----

  ghost function TotalCount(m: map<string, Metrics>): int {
    if m == map[] then 0
    else
      var key :| key in m;
      m[key].count + TotalCount(m - {key})
  }

  lemma {:induction false} TotalCountUpdate(m: map<string, Metrics>, key: string, v: Metrics)
    ensures TotalCount(m[key := v]) == TotalCount(m) + v.count - (if key in m then m[key].count else 0)
    decreases |m|
  {
    TotalCountTake(m[key := v], key);
    assert m[key := v] - {key} == m - {key};
    if key in m {
      TotalCountTake(m, key);
    } else {
      assert m - {key} == m;
    }
  }

  /** The total does not depend on the order of summation. */
  lemma {:induction false} TotalCountTake(m: map<string, Metrics>, key: string)
    requires key in m
    ensures TotalCount(m) == m[key].count + TotalCount(m - {key})
    decreases |m|
  {
    var first :| first in m && TotalCount(m) == m[first].count + TotalCount(m - {first});
    if first != key {
      assert |m - {first}| < |m| && |m - {key}| < |m|;
      TotalCountTake(m - {first}, key);
      TotalCountTake(m - {key}, first);
      assert m - {first} - {key} == m - {key} - {first};
    }
  }

  /** The counts of all endpoints add up to the number of requests in the batch. */
  lemma {:induction false} CountsAddUp(requests: seq<Request>)
    ensures TotalCount(MetricsOf(requests)) == |requests|
  {
    if requests == [] {
    } else {
      var before, last := requests[..|requests| - 1], requests[|requests| - 1];
      CountsAddUp(before);
      var m := MetricsOf(before);
      TotalCountUpdate(m, last.key, Counted(m, last)[last.key]);
    }
  }

  // ---- The logger as a function of its history ----

  /** What a summary entry says. */
  datatype Batch = Batch(totalRequests: int, endpoints: map<string, Metrics>)

  /** The requests of the current batch, and the sizes of the batches sent so far. */
  datatype Log = Log(pending: seq<Request>, sent: seq<seq<Request>>)

  datatype Event = Success(r: Request) | Flush

  function Flushed(l: Log): Log {
    if l.pending == [] then l else Log([], l.sent + [l.pending])
  }

  function Logged(l: Log, event: Event, batchSize: int): Log {
    match event
    case Flush => Flushed(l)
    case Success(r) =>
      var l' := l.(pending := l.pending + [r]);
      if |l'.pending| >= batchSize then Flushed(l') else l'
  }

  function After(events: seq<Event>, batchSize: int): Log {
    if events == [] then Log([], [])
    else Logged(After(events[..|events| - 1], batchSize), events[|events| - 1], batchSize)
  }

  function Concat(batches: seq<seq<Request>>): seq<Request> {
    if batches == [] then [] else Concat(batches[..|batches| - 1]) + batches[|batches| - 1]
  }

  function Successes(events: seq<Event>): seq<Request> {
    if events == [] then []
    else
      var before, last := events[..|events| - 1], events[|events| - 1];
      if last.Success? then Successes(before) + [last.r] else Successes(before)
  }

  lemma ConcatSnoc(batches: seq<seq<Request>>, batch: seq<Request>)
    ensures Concat(batches + [batch]) == Concat(batches) + batch
  {
    assert (batches + [batch])[..|batches|] == batches;
  }

  function Everything(l: Log): seq<Request> {
    Concat(l.sent) + l.pending
  }

  lemma FlushKeepsEverything(l: Log)
    ensures Everything(Flushed(l)) == Everything(l)
  {
    ConcatSnoc(l.sent, l.pending);
  }

  ghost predicate SizesInRange(l: Log, batchSize: int) {
    |l.pending| < batchSize && forall i :: 0 <= i < |l.sent| ==> 1 <= |l.sent[i]| <= batchSize
  }

  lemma LoggedKeepsSizes(l: Log, event: Event, batchSize: int)
    requires batchSize > 0 && SizesInRange(l, batchSize)
    ensures SizesInRange(Logged(l, event, batchSize), batchSize)
  {
  }

  /** Nothing is lost, duplicated or reordered: what was sent followed by what is pending is
      the whole history of successes, every batch sent has between 1 and batchSize requests,
      and fewer than batchSize are pending. */
  lemma {:induction false} NothingIsLost(events: seq<Event>, batchSize: int)
    requires batchSize > 0
    ensures Everything(After(events, batchSize)) == Successes(events)
    ensures SizesInRange(After(events, batchSize), batchSize)
  {
    if events == [] {
    } else {
      var before, last := events[..|events| - 1], events[|events| - 1];
      NothingIsLost(before, batchSize);
      var l := After(before, batchSize);
      LoggedKeepsSizes(l, last, batchSize);
      if last.Success? {
        var l' := l.(pending := l.pending + [last.r]);
        assert Everything(l') == Everything(l) + [last.r];
        FlushKeepsEverything(l');
      } else {
        FlushKeepsEverything(l);
      }
    }
  }

  /** Successes since the latest manual flush. */
  function SinceFlush(events: seq<Event>): nat {
    if events == [] || events[|events| - 1].Flush? then 0 else 1 + SinceFlush(events[..|events| - 1])
  }

  /** `q` full batches since the latest manual flush, and what is pending. */
  predicate SplitInBatches(pending: nat, n: nat, q: nat, batchSize: int) {
    pending < batchSize && batchSize * q + pending == n
  }

  lemma PendingStep(l: Log, event: Event, n: nat, q: nat, batchSize: int) returns (q': nat)
    requires batchSize > 0 && SplitInBatches(|l.pending|, n, q, batchSize)
    ensures SplitInBatches(|Logged(l, event, batchSize).pending|, if event.Flush? then 0 else n + 1, q', batchSize)
  {
    if event.Flush? {
      q' := 0;
    } else if |l.pending| + 1 >= batchSize {
      assert batchSize * (q + 1) == batchSize * q + batchSize;
      q' := q + 1;
    } else {
      q' := q;
    }
  }

  lemma {:induction false} PendingSplit(events: seq<Event>, batchSize: int) returns (q: nat)
    requires batchSize > 0
    ensures SplitInBatches(|After(events, batchSize).pending|, SinceFlush(events), q, batchSize)
  {
    if events == [] {
      q := 0;
    } else {
      var before, last := events[..|events| - 1], events[|events| - 1];
      var q0 := PendingSplit(before, batchSize);
      q := PendingStep(After(before, batchSize), last, SinceFlush(before), q0, batchSize);
    }
  }

  /** A flush leaves nothing pending, and otherwise every batchSize-th success since then sends
      the batch: what is pending is the remainder. */
  lemma PendingIsRemainder(events: seq<Event>, batchSize: int)
    requires batchSize > 0
    ensures |After(events, batchSize).pending| == SinceFlush(events) % batchSize
  {
    var q := PendingSplit(events, batchSize);
    QuotientIs(SinceFlush(events), batchSize, q, |After(events, batchSize).pending|);
  }

  /** All batches sent are full, and with the pending requests they make up `n`. */
  ghost predicate FullBatches(l: Log, n: nat, batchSize: int) {
    && |l.pending| < batchSize
    && batchSize * |l.sent| + |l.pending| == n
    && forall i :: 0 <= i < |l.sent| ==> |l.sent[i]| == batchSize
  }

  lemma LoggedKeepsFullBatches(l: Log, n: nat, r: Request, batchSize: int)
    requires batchSize > 0 && FullBatches(l, n, batchSize)
    ensures FullBatches(Logged(l, Success(r), batchSize), n + 1, batchSize)
  {
    assert batchSize * (|l.sent| + 1) == batchSize * |l.sent| + batchSize;
  }

  /** Without manual flushes there is one summary, of full size, for every batchSize
      successes. */
  lemma {:induction false} FullBatchesOnly(events: seq<Event>, batchSize: int)
    requires batchSize > 0 && forall i :: 0 <= i < |events| ==> events[i].Success?
    ensures FullBatches(After(events, batchSize), |events|, batchSize)
    ensures |After(events, batchSize).sent| == |events| / batchSize
  {
    if events == [] {
    } else {
      var n := |events| - 1;
      FullBatchesOnly(events[..n], batchSize);
      LoggedKeepsFullBatches(After(events[..n], batchSize), n, events[n].r, batchSize);
    }
    var l := After(events, batchSize);
    QuotientIs(|events|, batchSize, |l.sent|, |l.pending|);
  }

  // ---- The objects ----

  class RequestMetrics {
    var count: int
    var totalTime: int
    var minLatency: int
    var maxLatency: int
    var avgLatency: int

    function View(): Metrics
      reads this
    {
      Metrics(count, totalTime, minLatency, maxLatency, avgLatency)
    }

    constructor (latency: int)
      ensures View() == Metrics(0, 0, latency, latency, 0)
    {
      count, totalTime, avgLatency := 0, 0, 0;
      minLatency, maxLatency := latency, latency;
    }

    method Add(latency: int)
      requires count >= 0
      modifies this
      ensures View() == Metrics(old(count) + 1, old(totalTime) + latency, Min(latency, old(minLatency)),
                                Max(latency, old(maxLatency)), TruncDiv(old(totalTime) + latency, old(count) + 1))
    {
      count := count + 1;
      totalTime := totalTime + latency;
      if latency < minLatency {
        minLatency := latency;
      }
      if latency > maxLatency {
        maxLatency := latency;
      }
      avgLatency := TruncDiv(totalTime, count);
    }
  }

  const BATCH_SIZE := 100

  class Logger {
    var metrics: map<string, RequestMetrics>
    var batchCount: int
    /** The summaries sent so far. */
    var summaries: seq<Batch>
    ghost var log: Log

    /** What the objects hold, endpoint by endpoint. */
    ghost var live: map<string, Metrics>

    ghost predicate Live()
      reads `metrics, `live, metrics.Values
    {
      && (forall k1, k2 :: k1 in metrics && k2 in metrics && k1 != k2 ==> metrics[k1] != metrics[k2])
      && metrics.Keys == live.Keys
      && (forall key :: key in metrics ==> metrics[key].View() == live[key] && live[key].count > 0)
    }

    ghost predicate Sent()
      reads `summaries, `log
    {
      && |summaries| == |log.sent|
      && forall i :: 0 <= i < |summaries| ==> summaries[i] == Batch(|log.sent[i]|, MetricsOf(log.sent[i]))
    }

    /** Everything but the bound on the batch. */
    ghost predicate Pending()
      reads this, metrics.Values
    {
      Live() && live == MetricsOf(log.pending) && Sent() && batchCount == |log.pending|
    }

    ghost predicate Valid()
      reads this, metrics.Values
    {
      Pending() && batchCount < BATCH_SIZE
    }

    constructor ()
      ensures Valid() && log == Log([], [])
    {
      metrics, batchCount, summaries := map[], 0, [];
      log, live := Log([], []), map[];
    }

    /** Other codes than 200 are logged at once and change no batch. */
    method LogRequest(verb: string, endpoint: string, statusCode: int, latency: int)
      requires Valid()
      modifies this, metrics.Values
      ensures Valid() && fresh(metrics.Values - old(metrics.Values))
      ensures log == if statusCode != 200 then old(log)
                     else Logged(old(log), Success(Request(Key(verb, endpoint), latency)), BATCH_SIZE)
    {
      if statusCode == 200 {
        BatchSuccess(verb, endpoint, latency);
      }
    }

    method BatchSuccess(verb: string, endpoint: string, latency: int)
      requires Valid()
      modifies this, metrics.Values
      ensures Valid() && fresh(metrics.Values - old(metrics.Values))
      ensures log == Logged(old(log), Success(Request(Key(verb, endpoint), latency)), BATCH_SIZE)
    {
      MetricsSnoc(log.pending, Request(Key(verb, endpoint), latency));
      Measure(Key(verb, endpoint), latency);
      Enqueue(Request(Key(verb, endpoint), latency));
      if batchCount >= BATCH_SIZE {
        FlushBatch();
      }
    }

    /** The request enters the batch, which may now be full. */
    method Enqueue(ghost r: Request)
      requires Live() && live == MetricsOf(log.pending + [r]) && Sent() && batchCount == |log.pending|
      modifies `log, `batchCount
      ensures Pending() && log == old(log).(pending := old(log).pending + [r]) && batchCount == old(batchCount) + 1
    {
      log := log.(pending := log.pending + [r]);
      batchCount := batchCount + 1;
    }

    /** Adds the latency to the metrics of its endpoint, which are made on its first request. */
    method Measure(key: string, latency: int)
      requires Live()
      modifies `metrics, `live, metrics.Values
      ensures Live() && live == Counted(old(live), Request(key, latency))
      ensures fresh(metrics.Values - old(metrics.Values))
    {
      if key !in metrics {
        var created := new RequestMetrics(latency);
        metrics := metrics[key := created];
      }
      metrics[key].Add(latency);
      live := Counted(live, Request(key, latency));
    }

    method FlushBatch()
      requires Pending()
      modifies this
      ensures Valid() && log == Flushed(old(log)) && metrics.Values <= old(metrics.Values)
    {
      if batchCount == 0 {
        return;
      }
      summaries := summaries + [Batch(batchCount, map key | key in metrics :: metrics[key].View())];
      assert summaries[|log.sent|].endpoints == live;
      metrics, live := map[], map[];
      batchCount := 0;
      log := Flushed(log);
    }

    method FlushPending()
      requires Valid()
      modifies this
      ensures Valid() && log == Logged(old(log), Flush, BATCH_SIZE) && metrics.Values <= old(metrics.Values)
    {
      FlushBatch();
    }
  }
}
