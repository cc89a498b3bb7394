/** The bounded sample windows of internal/websocket/enhanced_client.go:952-1074. */
module Trackers {
  import opened Common

  datatype Sample = Sample(timestamp: int, bytes: int, messages: int)

  /** The last `k` elements. */
  function Last<T>(s: seq<T>, k: nat): seq<T>
    requires k <= |s|
  {
    s[|s| - k..]
  }

  // ---- Throughput samples ----

  /** From the first sample newer than the cutoff on. */
  function DropOld(samples: seq<Sample>, cutoff: int): seq<Sample> {
    if samples == [] || samples[0].timestamp > cutoff then samples else DropOld(samples[1..], cutoff)
  }

  /** Without a newer sample the source cuts nothing. */
  function CutOld(samples: seq<Sample>, cutoff: int): seq<Sample> {
    if DropOld(samples, cutoff) == [] then samples else DropOld(samples, cutoff)
  }

  function Limited<T>(s: seq<T>, k: nat): seq<T> {
    if |s| > k then Last(s, k) else s
  }

  function Added(samples: seq<Sample>, sample: Sample, cutoff: int, maxSamples: nat): seq<Sample> {
    Limited(CutOld(samples + [sample], cutoff), maxSamples)
  }

  /** The samples of a history that are newer than the cutoff. */
  function Newer(history: seq<Sample>, cutoff: int): seq<Sample> {
    if history == [] then []
    else if history[0].timestamp > cutoff then [history[0]] + Newer(history[1..], cutoff)
    else Newer(history[1..], cutoff)
  }

  /** Timestamps never decrease. */
  predicate Sorted(history: seq<Sample>) {
    |history| < 2 || (history[0].timestamp <= history[1].timestamp && Sorted(history[1..]))
  }

  /** The end of `x` is not after the beginning of `y`. */
  predicate Follows(x: seq<Sample>, y: seq<Sample>) {
    x != [] && y != [] ==> x[|x| - 1].timestamp <= y[0].timestamp
  }

  lemma {:induction false} SortedConcat(x: seq<Sample>, y: seq<Sample>)
    ensures Sorted(x + y) <==> Sorted(x) && Sorted(y) && Follows(x, y)
  {
    if x == [] {
      assert x + y == y;
    } else {
      SortedConcat(x[1..], y);
      assert (x + y)[1..] == x[1..] + y;
    }
  }

  lemma {:induction false} NewerConcat(x: seq<Sample>, y: seq<Sample>, cutoff: int)
    ensures Newer(x + y, cutoff) == Newer(x, cutoff) + Newer(y, cutoff)
  {
    if x == [] {
      assert x + y == y;
    } else {
      NewerConcat(x[1..], y, cutoff);
      assert (x + y)[1..] == x[1..] + y;
      Assoc([x[0]], Newer(x[1..], cutoff), Newer(y, cutoff));
    }
  }

  lemma {:induction false} SortedEnds(s: seq<Sample>)
    requires Sorted(s) && s != []
    ensures s[0].timestamp <= s[|s| - 1].timestamp
  {
    if |s| <= 1 {
    } else {
      SortedEnds(s[1..]);
    }
  }

  /** A sorted history that ends old is old, and one that begins new is new. */
  lemma {:induction false} NewerOfOld(s: seq<Sample>, cutoff: int)
    requires Sorted(s) && (s != [] ==> s[|s| - 1].timestamp <= cutoff)
    ensures Newer(s, cutoff) == [] && DropOld(s, cutoff) == []
  {
    if s == [] {
    } else {
      SortedEnds(s);
      NewerOfOld(s[1..], cutoff);
    }
  }

  lemma {:induction false} NewerOfNew(s: seq<Sample>, cutoff: int)
    requires Sorted(s) && (s != [] ==> s[0].timestamp > cutoff)
    ensures Newer(s, cutoff) == s
  {
    if s == [] {
    } else {
      NewerOfNew(s[1..], cutoff);
    }
  }

  lemma {:induction false} DropOldIsNewer(s: seq<Sample>, cutoff: int)
    requires Sorted(s)
    ensures DropOld(s, cutoff) == Newer(s, cutoff)
  {
    if s == [] {
    } else {
      if s[0].timestamp > cutoff {
        NewerOfNew(s, cutoff);
      } else {
        DropOldIsNewer(s[1..], cutoff);
      }
    }
  }

  /** What the tracker has dropped of its history and what it still holds: it dropped samples
      only to keep the bound on their number or because the latest of them was older than the
      latest cutoff. */
  predicate Holds(dropped: seq<Sample>, samples: seq<Sample>, cutoff: int, maxSamples: nat) {
    && Sorted(dropped) && Sorted(samples) && Follows(dropped, samples)
    && |samples| <= maxSamples
    && (dropped == [] || |samples| == maxSamples || dropped[|dropped| - 1].timestamp <= cutoff)
  }

  /** A new sample with its clock reading, and the later one that gives the cutoff. */
  predicate InTime(dropped: seq<Sample>, samples: seq<Sample>, cutoff: int, sample: Sample, newCutoff: int) {
    && Follows(dropped, [sample]) && Follows(samples, [sample])
    && cutoff <= newCutoff
  }

  lemma Extended(dropped: seq<Sample>, samples: seq<Sample>, sample: Sample)
    requires Sorted(dropped) && Sorted(samples) && Follows(dropped, samples)
    requires Follows(dropped, [sample]) && Follows(samples, [sample])
    ensures Sorted(samples + [sample]) && Follows(dropped, samples + [sample])
    ensures dropped + samples + [sample] == dropped + (samples + [sample])
  {
    SortedConcat(samples, [sample]);
  }

  lemma LimitedOfAppend<T>(x: seq<T>, y: seq<T>, k: nat)
    requires x == [] || |y| >= k
    ensures Limited(y, k) == Last(x + y, Min(k, |x + y|))
  {
    if x == [] {
      assert x + y == y;
    }
  }

  /** What was dropped is old, unless the tracker is full and holds newer samples only. */
  lemma DroppedIsOldOrFull(dropped: seq<Sample>, samples: seq<Sample>, cutoff: int, maxSamples: nat,
                           sample: Sample, newCutoff: int)
    requires Holds(dropped, samples, cutoff, maxSamples) && InTime(dropped, samples, cutoff, sample, newCutoff)
    ensures || Newer(dropped, newCutoff) == []
            || (|samples| == maxSamples && Newer(samples + [sample], newCutoff) == samples + [sample])
  {
    if dropped == [] || dropped[|dropped| - 1].timestamp <= newCutoff {
      NewerOfOld(dropped, newCutoff);
    } else {
      Extended(dropped, samples, sample);
      NewerOfNew(samples + [sample], newCutoff);
    }
  }

  /** If the new sample is itself newer than the cutoff, the tracker is left with the last
      maxSamples of those samples of its whole history that are newer than the cutoff. */
  lemma AddedIsWindow(dropped: seq<Sample>, samples: seq<Sample>, cutoff: int, maxSamples: nat,
                      sample: Sample, newCutoff: int)
    requires Holds(dropped, samples, cutoff, maxSamples) && InTime(dropped, samples, cutoff, sample, newCutoff)
    requires sample.timestamp > newCutoff
    ensures var all := Newer(dropped + samples + [sample], newCutoff);
      Added(samples, sample, newCutoff, maxSamples) == Last(all, Min(maxSamples, |all|))
  {
    var a := samples + [sample];
    Extended(dropped, samples, sample);
    NewerConcat(dropped, a, newCutoff);
    NewerConcat(samples, [sample], newCutoff);
    DropOldIsNewer(a, newCutoff);
    DroppedIsOldOrFull(dropped, samples, cutoff, maxSamples, sample, newCutoff);
    LimitedOfAppend(Newer(dropped, newCutoff), Newer(a, newCutoff), maxSamples);
  }

  /** Otherwise nothing old is cut off at all. */
  lemma AddedWhenStale(dropped: seq<Sample>, samples: seq<Sample>, cutoff: int, maxSamples: nat,
                       sample: Sample, newCutoff: int)
    requires Holds(dropped, samples, cutoff, maxSamples) && InTime(dropped, samples, cutoff, sample, newCutoff)
    requires sample.timestamp <= newCutoff
    ensures Newer(dropped + samples + [sample], newCutoff) == []
    ensures Added(samples, sample, newCutoff, maxSamples) == Limited(samples + [sample], maxSamples)
  {
    var a := samples + [sample];
    Extended(dropped, samples, sample);
    NewerConcat(dropped, a, newCutoff);
    NewerOfOld(a, newCutoff);
    NewerOfOld(dropped, newCutoff);
  }

  /** The tracker holds the window its name promises exactly when the new sample has not aged
      out of the window before the cutoff is computed (or nothing may be held anyway). */
  lemma AddedIsWindowIff(dropped: seq<Sample>, samples: seq<Sample>, cutoff: int, maxSamples: nat,
                         sample: Sample, newCutoff: int)
    requires Holds(dropped, samples, cutoff, maxSamples) && InTime(dropped, samples, cutoff, sample, newCutoff)
    ensures var all := Newer(dropped + samples + [sample], newCutoff);
      Added(samples, sample, newCutoff, maxSamples) == Last(all, Min(maxSamples, |all|))
      <==> sample.timestamp > newCutoff || maxSamples == 0
  {
    if sample.timestamp > newCutoff {
      AddedIsWindow(dropped, samples, cutoff, maxSamples, sample, newCutoff);
    } else {
      AddedWhenStale(dropped, samples, cutoff, maxSamples, sample, newCutoff);
    }
  }

  // ---- What is dropped ----

  /** The old samples in front of the first newer one. */
  function OldPrefix(samples: seq<Sample>, cutoff: int): (d: seq<Sample>)
    ensures d + DropOld(samples, cutoff) == samples
    ensures d != [] ==> d[|d| - 1].timestamp <= cutoff
  {
    if samples == [] || samples[0].timestamp > cutoff then []
    else [samples[0]] + OldPrefix(samples[1..], cutoff)
  }

  function CutPart(samples: seq<Sample>, cutoff: int): (d: seq<Sample>)
    ensures d + CutOld(samples, cutoff) == samples
    ensures d != [] ==> d[|d| - 1].timestamp <= cutoff
  {
    if DropOld(samples, cutoff) == [] then [] else OldPrefix(samples, cutoff)
  }

  /** Dropping an old part keeps the invariant while the limit is not exceeded. */
  lemma CutKeepsHolds(dropped: seq<Sample>, d: seq<Sample>, cut: seq<Sample>, newCutoff: int, maxSamples: nat)
    requires Sorted(dropped + (d + cut)) && |cut| <= maxSamples
    requires if d == [] then dropped == [] || dropped[|dropped| - 1].timestamp <= newCutoff || |cut| == maxSamples
             else d[|d| - 1].timestamp <= newCutoff
    ensures Holds(dropped + d, cut, newCutoff, maxSamples)
  {
    Assoc(dropped, d, cut);
    SortedConcat(dropped + d, cut);
    if d == [] {
      assert dropped + d == dropped;
    } else {
      assert (dropped + d)[|dropped + d| - 1] == d[|d| - 1];
    }
  }

  /** And so does dropping whatever exceeds the limit. */
  lemma LimitKeepsHolds(dropped: seq<Sample>, cut: seq<Sample>, newCutoff: int, maxSamples: nat)
    requires Sorted(dropped + cut) && |cut| > maxSamples
    ensures Holds(dropped + cut[..|cut| - maxSamples], Last(cut, maxSamples), newCutoff, maxSamples)
    ensures dropped + cut[..|cut| - maxSamples] + Last(cut, maxSamples) == dropped + cut
  {
    var over, last := cut[..|cut| - maxSamples], Last(cut, maxSamples);
    assert over + last == cut;
    Assoc(dropped, over, last);
    SortedConcat(dropped + over, last);
  }

  lemma AddedKeepsHolds(dropped: seq<Sample>, samples: seq<Sample>, cutoff: int, maxSamples: nat,
                        sample: Sample, newCutoff: int)
      returns (dropped': seq<Sample>)
    requires Holds(dropped, samples, cutoff, maxSamples) && InTime(dropped, samples, cutoff, sample, newCutoff)
    ensures Holds(dropped', Added(samples, sample, newCutoff, maxSamples), newCutoff, maxSamples)
    ensures dropped' + Added(samples, sample, newCutoff, maxSamples) == dropped + samples + [sample]
  {
    var a := samples + [sample];
    Extended(dropped, samples, sample);
    SortedConcat(dropped, a);
    var d, cut := CutPart(a, newCutoff), CutOld(a, newCutoff);
    Assoc(dropped, d, cut);
    if |cut| <= maxSamples {
      CutKeepsHolds(dropped, d, cut, newCutoff, maxSamples);
      dropped' := dropped + d;
    } else {
      LimitKeepsHolds(dropped + d, cut, newCutoff, maxSamples);
      dropped' := dropped + d + cut[..|cut| - maxSamples];
    }
  }

  lemma Assoc<T>(x: seq<T>, y: seq<T>, z: seq<T>)
    ensures x + y + z == x + (y + z)
  {
  }

  class ClientThroughputTracker {
    const maxSamples: nat
    const windowDuration: int
    var samples: seq<Sample>
    ghost var dropped: seq<Sample>
    ghost var cutoff: int

    ghost function History(): seq<Sample>
      reads this
    {
      dropped + samples
    }

    ghost predicate Valid()
      reads this
    {
      Holds(dropped, samples, cutoff, maxSamples)
    }

    constructor (maxSamples: nat, windowDuration: int, ghost now: int)
      ensures Valid() && History() == [] && cutoff == now - windowDuration
      ensures this.maxSamples == maxSamples && this.windowDuration == windowDuration
    {
      this.maxSamples, this.windowDuration := maxSamples, windowDuration;
      samples, dropped, cutoff := [], [], now - windowDuration;
    }

    /** `now` is read for the timestamp and `later` for the cutoff. */
    method AddSample(bytes: int, messages: int, now: int, later: int)
      requires Valid() && now <= later
      requires InTime(dropped, samples, cutoff, Sample(now, bytes, messages), later - windowDuration)
      modifies this
      ensures Valid() && cutoff == later - windowDuration
      ensures History() == old(History()) + [Sample(now, bytes, messages)]
      ensures samples == Added(old(samples), Sample(now, bytes, messages), later - windowDuration, maxSamples)
    {
      var sample := Sample(now, bytes, messages);
      var newCutoff := later - windowDuration;
      ghost var dropped' := AddedKeepsHolds(dropped, samples, cutoff, maxSamples, sample, newCutoff);
      dropped, cutoff := dropped', newCutoff;
      samples := AppendAndTrim(samples, sample, newCutoff, maxSamples);
    }
  }

  method AppendAndTrim(samples: seq<Sample>, sample: Sample, cutoff: int, maxSamples: nat)
    returns (trimmed: seq<Sample>)
    ensures trimmed == Added(samples, sample, cutoff, maxSamples)
  {
    trimmed := CutPrefix(samples + [sample], cutoff);
    if |trimmed| > maxSamples {
      trimmed := trimmed[|trimmed| - maxSamples..];
    }
  }

  method CutPrefix(samples: seq<Sample>, cutoff: int) returns (cut: seq<Sample>)
    ensures cut == CutOld(samples, cutoff)
  {
    for i := 0 to |samples|
      invariant DropOld(samples[i..], cutoff) == DropOld(samples, cutoff)
    {
      assert samples[i..][1..] == samples[i + 1..];
      if samples[i].timestamp > cutoff {
        return samples[i..];
      }
    }
    return samples;
  }

  // ---- Latency samples ----

  class LatencyTracker {
    const maxSamples: nat
    var samples: seq<int>
    ghost var history: seq<int>

    /** The last maxSamples latencies, or all while there are fewer. */
    ghost predicate Valid()
      reads this
    {
      samples == Last(history, Min(maxSamples, |history|))
    }

    constructor (maxSamples: nat)
      ensures Valid() && history == [] && this.maxSamples == maxSamples
    {
      this.maxSamples := maxSamples;
      samples, history := [], [];
    }

    method AddSample(latency: int)
      requires Valid()
      modifies this
      ensures Valid() && history == old(history) + [latency]
    {
      samples := samples + [latency];
      history := history + [latency];
      if |samples| > maxSamples {
        samples := samples[1..];
      }
    }

    method GetAverageLatency() returns (average: int)
      ensures average == Average(samples)
    {
      if |samples| == 0 {
        return 0;
      }
      var total := 0;
      for i := 0 to |samples|
        invariant total == Sum(samples[..i])
      {
        assert samples[..i + 1][..i] == samples[..i];
        total := total + samples[i];
      }
      assert samples[..|samples|] == samples;
      return TruncDiv(total, |samples|);
    }
  }

  /** The mean of the samples, truncated, or 0. */
  function Average(samples: seq<int>): int {
    if samples == [] then 0 else TruncDiv(Sum(samples), |samples|)
  }

  /** It lies between any bounds on the samples. */
  lemma AverageBetween(samples: seq<int>, lo: int, hi: int)
    requires samples != [] && forall x :: x in samples ==> lo <= x <= hi
    ensures lo <= Average(samples) <= hi
  {
    SumBetween(samples, lo, hi);
    TruncDivBetween(Sum(samples), |samples|, lo, hi);
  }

  /** Taken as often as there are samples it makes up their sum, but for less than one nanosecond
      each. */
  lemma AverageMakesUpSum(samples: seq<int>)
    requires forall x :: x in samples ==> x >= 0
    ensures samples == [] ==> Average(samples) == 0
    ensures samples != [] ==>
              |samples| * Average(samples) <= Sum(samples) < |samples| * (Average(samples) + 1)
  {
    if samples != [] {
      SumBetween(samples, 0, Highest(samples));
      TruncDivDropsFraction(Sum(samples), |samples|);
    }
  }

  function Highest(s: seq<int>): (m: int)
    requires s != []
    ensures forall x :: x in s ==> x <= m
  {
    if |s| == 1 then s[0]
    else
      assert s == s[..|s| - 1] + [s[|s| - 1]];
      Max(Highest(s[..|s| - 1]), s[|s| - 1])
  }
}
