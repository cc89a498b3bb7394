/** The integer token bucket of internal/websocket/enhanced_client.go:1149-1182. Each call
    rounds the refill down and restarts the clock, so fractions of a token are lost. */
module TokenBucket {
  import opened Common

  /** Messages per second and burst allowance. A limiter is only created for a positive rate;
      the burst comes from the configuration as it is. */
  datatype Params = Params(rate: int, burst: int) {
    predicate Valid() { rate > 0 }
  }

  datatype Bucket = Bucket(tokens: int, lastRefill: int)

  function Added(p: Params, elapsed: int): int {
    p.rate * elapsed / SECOND
  }

  function Refilled(p: Params, b: Bucket, now: int): int {
    Min(p.burst, b.tokens + Added(p, now - b.lastRefill))
  }

  /** One call of Allow: the bucket afterwards and the answer. */
  function Step(p: Params, b: Bucket, now: int): (Bucket, bool) {
    var tokens := Refilled(p, b, now);
    if tokens > 0 then (Bucket(tokens - 1, now), true) else (Bucket(tokens, now), false)
  }

  class RateLimiter {
    const params: Params
    var tokens: int
    var lastRefill: int

    function View(): Bucket
      reads this
    {
      Bucket(tokens, lastRefill)
    }

    ghost predicate Valid()
      reads this
    {
      params.Valid() && Min(0, params.burst) <= tokens <= params.burst
    }

    constructor (rate: int, burst: int, now: int)
      requires rate > 0
      ensures Valid() && params == Params(rate, burst) && View() == Bucket(burst, now)
    {
      params := Params(rate, burst);
      tokens, lastRefill := burst, now;
    }

    method Allow(now: int) returns (allowed: bool)
      requires Valid() && lastRefill <= now
      modifies this
      ensures Valid()
      ensures (View(), allowed) == Step(params, old(View()), now)
    {
      var elapsed := now - lastRefill;
      AddedNonNegative(params, elapsed);
      var tokensToAdd := params.rate * elapsed / SECOND;
      tokens := tokens + tokensToAdd;
      if tokens > params.burst {
        tokens := params.burst;
      }
      lastRefill := now;
      if tokens > 0 {
        tokens := tokens - 1;
        return true;
      }
      return false;
    }
  }

  // ---- Runs: a bucket made at `start`, and calls at the given times ----

  ghost predicate InOrder(start: int, times: seq<int>) {
    && (forall i :: 0 <= i < |times| ==> start <= times[i])
    && (forall i, j :: 0 <= i < j < |times| ==> times[i] <= times[j])
  }

  function After(p: Params, start: int, times: seq<int>): Bucket {
    if times == [] then Bucket(p.burst, start)
    else Step(p, After(p, start, times[..|times| - 1]), times[|times| - 1]).0
  }

  /** The answer to the k-th call. */
  predicate Allowed(p: Params, start: int, times: seq<int>, k: nat)
    requires k < |times|
  {
    Step(p, After(p, start, times[..k]), times[k]).1
  }

  /** Calls allowed within [s, t]. */
  function AllowedWithin(p: Params, start: int, times: seq<int>, s: int, t: int): nat {
    if times == [] then 0
    else
      var k := |times| - 1;
      AllowedWithin(p, start, times[..k], s, t) + (if s <= times[k] <= t && Allowed(p, start, times, k) then 1 else 0)
  }

  /** The instant of the latest call, or of the start. */
  lemma LastRefill(p: Params, start: int, times: seq<int>)
    ensures After(p, start, times).lastRefill == if times == [] then start else times[|times| - 1]
  {
  }

  lemma AddedNonNegative(p: Params, elapsed: int)
    requires p.Valid() && elapsed >= 0
    ensures Added(p, elapsed) >= 0
  {
    MulMono(p.rate, 0, elapsed);
  }

  /** Rounding down twice gives no more than rounding down once. */
  lemma AddedIsSuperadditive(p: Params, a: int, b: int)
    ensures Added(p, a) + Added(p, b) <= Added(p, a + b)
  {
    assert p.rate * (a + b) == p.rate * a + p.rate * b;
  }

  lemma AddedMono(p: Params, a: int, b: int)
    requires p.Valid() && a <= b
    ensures Added(p, a) <= Added(p, b)
  {
    MulMono(p.rate, a, b);
  }

  lemma {:induction false} TokensInRange(p: Params, start: int, times: seq<int>)
    requires p.Valid() && InOrder(start, times)
    ensures Min(0, p.burst) <= After(p, start, times).tokens <= p.burst
  {
    if times == [] {
    } else {
      var before := times[..|times| - 1];
      TokensInRange(p, start, before);
      LastRefill(p, start, before);
      AddedNonNegative(p, times[|times| - 1] - After(p, start, before).lastRefill);
    }
  }

  // ---- At most burst + rate * (t - s) in any interval ----

  /** `count` calls were allowed in [s, t] so far. Until the interval is over, they and the
      tokens at hand are paid for by one full bucket and the time since s. */
  predicate Paid(p: Params, b: Bucket, s: int, t: int, count: nat) {
    && (b.lastRefill < s ==> count == 0)
    && (s <= b.lastRefill <= t ==> count + b.tokens <= p.burst + Added(p, b.lastRefill - s))
    && (t < b.lastRefill ==> count <= Max(0, p.burst) + Added(p, t - s))
  }

  lemma PaidStep(p: Params, b: Bucket, now: int, s: int, t: int, count: nat)
    requires p.Valid() && b.lastRefill <= now && s <= t
    requires Min(0, p.burst) <= b.tokens <= p.burst && Paid(p, b, s, t, count)
    ensures var (b', allowed) := Step(p, b, now);
      Paid(p, b', s, t, count + (if s <= now <= t && allowed then 1 else 0))
  {
    AddedNonNegative(p, t - s);
    if s <= now <= t {
      AddedNonNegative(p, now - s);
      if s <= b.lastRefill {
        AddedIsSuperadditive(p, b.lastRefill - s, now - b.lastRefill);
      }
    } else if s <= b.lastRefill <= t {
      AddedMono(p, b.lastRefill - s, t - s);
    }
  }

  lemma {:induction false} PaidInvariant(p: Params, start: int, times: seq<int>, s: int, t: int)
    requires p.Valid() && InOrder(start, times) && s <= t
    ensures Paid(p, After(p, start, times), s, t, AllowedWithin(p, start, times, s, t))
  {
    if times == [] {
      if start <= t {
        AddedNonNegative(p, Max(0, start - s));
      } else {
        AddedNonNegative(p, t - s);
      }
    } else {
      var before := times[..|times| - 1];
      PaidInvariant(p, start, before, s, t);
      TokensInRange(p, start, before);
      LastRefill(p, start, before);
      PaidStep(p, After(p, start, before), times[|times| - 1], s, t, AllowedWithin(p, start, before, s, t));
    }
  }

  lemma WindowBound(p: Params, start: int, times: seq<int>, s: int, t: int)
    requires p.Valid() && InOrder(start, times) && s <= t
    ensures AllowedWithin(p, start, times, s, t) <= Max(0, p.burst) + p.rate * (t - s) / SECOND
  {
    PaidInvariant(p, start, times, s, t);
    TokensInRange(p, start, times);
    AddedNonNegative(p, t - s);
    var last := After(p, start, times).lastRefill;
    if s <= last <= t {
      AddedMono(p, last - s, t - s);
    }
  }

  // ---- Beside the ideal bucket ----

  /** A bucket that keeps fractions of a token. */
  datatype Ideal = Ideal(level: real, lastRefill: int)

  function IdealRefilled(p: Params, i: Ideal, now: int): real {
    var level := i.level + (p.rate * (now - i.lastRefill)) as real / SECOND as real;
    if level > p.burst as real then p.burst as real else level
  }

  function IdealStep(p: Params, i: Ideal, now: int): (Ideal, bool) {
    var level := IdealRefilled(p, i, now);
    if level >= 1.0 then (Ideal(level - 1.0, now), true) else (Ideal(level, now), false)
  }

  function IdealAfter(p: Params, start: int, times: seq<int>): Ideal {
    if times == [] then Ideal(p.burst as real, start)
    else IdealStep(p, IdealAfter(p, start, times[..|times| - 1]), times[|times| - 1]).0
  }

  predicate IdealAllowed(p: Params, start: int, times: seq<int>, k: nat)
    requires k < |times|
  {
    IdealStep(p, IdealAfter(p, start, times[..k]), times[k]).1
  }

  lemma FloorBelow(n: int)
    ensures (n / SECOND) as real <= n as real / SECOND as real
    ensures n % SECOND == 0 ==> (n / SECOND) as real == n as real / SECOND as real
  {
    assert n == SECOND * (n / SECOND) + n % SECOND;
  }

  lemma DominatedStep(p: Params, b: Bucket, i: Ideal, now: int)
    requires b.lastRefill == i.lastRefill && b.tokens as real <= i.level
    ensures var (b', allowed) := Step(p, b, now); var (i', idealAllowed) := IdealStep(p, i, now);
      b'.lastRefill == i'.lastRefill && b'.tokens as real <= i'.level && (allowed ==> idealAllowed)
  {
    FloorBelow(p.rate * (now - b.lastRefill));
  }

  lemma {:induction false} DominatedInvariant(p: Params, start: int, times: seq<int>)
    ensures After(p, start, times).lastRefill == IdealAfter(p, start, times).lastRefill
    ensures After(p, start, times).tokens as real <= IdealAfter(p, start, times).level
  {
    if times == [] {
    } else {
      var before := times[..|times| - 1];
      DominatedInvariant(p, start, before);
      DominatedStep(p, After(p, start, before), IdealAfter(p, start, before), times[|times| - 1]);
    }
  }

  /** On the same calls, the integer bucket never allows one that the ideal bucket refuses. */
  lemma DominatedByIdeal(p: Params, start: int, times: seq<int>, k: nat)
    requires k < |times| && Allowed(p, start, times, k)
    ensures IdealAllowed(p, start, times, k)
  {
    DominatedInvariant(p, start, times[..k]);
    DominatedStep(p, After(p, start, times[..k]), IdealAfter(p, start, times[..k]), times[k]);
  }

  /** Time between a call and the one before it (or the start). */
  function Gap(start: int, times: seq<int>, k: nat): int
    requires k < |times|
  {
    times[k] - (if k == 0 then start else times[k - 1])
  }

  /** The fraction of a token that a gap is worth beyond whole ones. */
  function LostIn(p: Params, gap: int): (lost: real)
    ensures 0.0 <= lost < 1.0
  {
    (p.rate * gap % SECOND) as real / SECOND as real
  }

  /** All fractions lost in a run. */
  function Lost(p: Params, start: int, times: seq<int>): (lost: real)
    ensures lost >= 0.0
  {
    if times == [] then 0.0
    else Lost(p, start, times[..|times| - 1]) + LostIn(p, Gap(start, times, |times| - 1))
  }

  lemma FloorAndRest(n: int)
    ensures n as real / SECOND as real == (n / SECOND) as real + (n % SECOND) as real / SECOND as real
  {
    assert n == SECOND * (n / SECOND) + n % SECOND;
  }

  lemma LagStep(p: Params, b: Bucket, i: Ideal, now: int, lag: real)
    requires b.lastRefill == i.lastRefill && lag >= 0.0
    requires b.tokens as real <= i.level <= b.tokens as real + lag
    ensures IdealStep(p, i, now).0.level
            <= Step(p, b, now).0.tokens as real + lag + LostIn(p, now - b.lastRefill)
  {
    DominatedStep(p, b, i, now);
    FloorAndRest(p.rate * (now - b.lastRefill));
  }

  /** The integer bucket never lags behind the ideal one by more than the fractions lost so far:
      whole tokens are never thrown away, whatever the schedule. */
  lemma {:induction false} LagIsLost(p: Params, start: int, times: seq<int>)
    ensures After(p, start, times).tokens as real <= IdealAfter(p, start, times).level
            <= After(p, start, times).tokens as real + Lost(p, start, times)
  {
    DominatedInvariant(p, start, times);
    if times == [] {
    } else {
      var before, now := times[..|times| - 1], times[|times| - 1];
      LagIsLost(p, start, before);
      DominatedInvariant(p, start, before);
      LastRefill(p, start, before);
      LagStep(p, After(p, start, before), IdealAfter(p, start, before), now, Lost(p, start, before));
    }
  }

  /** So it refuses a call that the ideal bucket allows only when it has lost the difference. */
  lemma RefusedForLoss(p: Params, start: int, times: seq<int>, k: nat)
    requires k < |times| && IdealAllowed(p, start, times, k) && !Allowed(p, start, times, k)
    ensures IdealRefilled(p, IdealAfter(p, start, times[..k]), times[k]) <= Lost(p, start, times[..k + 1])
  {
    var before := times[..k];
    assert times[..k + 1][..k] == before;
    LagIsLost(p, start, before);
    DominatedInvariant(p, start, before);
    LastRefill(p, start, before);
    FloorAndRest(p.rate * (times[k] - After(p, start, before).lastRefill));
  }

  ghost predicate WholeGaps(p: Params, start: int, times: seq<int>) {
    forall k :: 0 <= k < |times| ==> p.rate * Gap(start, times, k) % SECOND == 0
  }

  /** The two buckets are the same while every gap is worth a whole number of tokens. */
  lemma {:induction false} WholeGapsLoseNothing(p: Params, start: int, times: seq<int>)
    requires WholeGaps(p, start, times)
    ensures After(p, start, times).tokens as real == IdealAfter(p, start, times).level
    ensures forall k :: 0 <= k < |times| ==> (Allowed(p, start, times, k) <==> IdealAllowed(p, start, times, k))
  {
    if times == [] {
    } else {
      var n := |times| - 1;
      var before := times[..n];
      assert forall k :: 0 <= k < n ==> Gap(start, before, k) == Gap(start, times, k);
      WholeGapsLoseNothing(p, start, before);
      DominatedInvariant(p, start, before);
      LastRefill(p, start, before);
      FloorBelow(p.rate * Gap(start, times, n));
      forall k | 0 <= k < n
        ensures Allowed(p, start, times, k) <==> IdealAllowed(p, start, times, k)
      {
        assert before[..k] == times[..k];
        assert Allowed(p, start, before, k) <==> IdealAllowed(p, start, before, k);
      }
    }
  }

  ghost predicate FastPolling(p: Params, start: int, times: seq<int>) {
    forall k :: 0 <= k < |times| ==> 0 <= p.rate * Gap(start, times, k) < SECOND
  }

  /** Calls that follow one another by less than the time of one token starve: the first
      `burst` are allowed and none ever after, however long they go on. */
  lemma {:induction false} FastPollingStarves(p: Params, start: int, times: seq<int>, k: nat)
    requires p.Valid() && FastPolling(p, start, times) && k <= |times|
    ensures After(p, start, times[..k]).tokens == if p.burst < 0 then p.burst else Max(0, p.burst - k)
    ensures k < |times| ==> (Allowed(p, start, times, k) <==> k < p.burst)
  {
    if k == 0 {
    } else {
      FastPollingStarves(p, start, times, k - 1);
      assert times[..k][..k - 1] == times[..k - 1];
      LastRefill(p, start, times[..k - 1]);
      assert Added(p, Gap(start, times, k - 1)) == 0;
    }
    if k < |times| {
      LastRefill(p, start, times[..k]);
      assert Added(p, Gap(start, times, k)) == 0;
    }
  }

  // ---- Exactly when no token is lost ----

  ghost predicate GapsAtLeast(start: int, times: seq<int>, g: int) {
    forall k :: 0 <= k < |times| ==> Gap(start, times, k) >= g
  }

  /** The integer bucket and the ideal one answer alike on every schedule whose calls are at
      least `g` apart. */
  ghost predicate SameAnswers(p: Params, g: int) {
    forall start: int, times: seq<int>, k: nat :: GapsAtLeast(start, times, g) && k < |times|
      ==> (Allowed(p, start, times, k) <==> IdealAllowed(p, start, times, k))
  }

  /** Nothing is lost when nothing is ever allowed, when every gap is worth a token, and, if
      calls may coincide, when the rate is a whole number of tokens per nanosecond or fills the
      bucket in one. */
  predicate Lossless(p: Params, g: int) {
    || p.burst <= 0
    || p.rate * g >= SECOND
    || (g == 0 && (p.rate % SECOND == 0 || p.rate >= p.burst * SECOND))
  }

  lemma {:induction false} GapsInOrder(start: int, times: seq<int>)
    requires GapsAtLeast(start, times, 0)
    ensures InOrder(start, times)
  {
    if times == [] {
    } else {
      var n := |times| - 1;
      var before := times[..n];
      assert forall k :: 0 <= k < n ==> Gap(start, before, k) == Gap(start, times, k);
      GapsInOrder(start, before);
      assert Gap(start, times, n) >= 0;
      assert n > 0 ==> before[n - 1] == times[n - 1];
      forall i | 0 <= i < n
        ensures start <= times[i] <= times[n]
      {
        assert before[i] == times[i] && before[i] <= before[n - 1];
      }
    }
  }

  lemma NothingAllowed(p: Params, start: int, times: seq<int>, k: nat)
    requires p.Valid() && p.burst <= 0 && k < |times|
    ensures !Allowed(p, start, times, k) && !IdealAllowed(p, start, times, k)
  {
  }

  lemma EveryCallAllowed(p: Params, g: int, start: int, times: seq<int>, k: nat)
    requires p.Valid() && p.burst > 0 && g >= 0 && p.rate * g >= SECOND
    requires GapsAtLeast(start, times, g) && k < |times|
    ensures Allowed(p, start, times, k) && IdealAllowed(p, start, times, k)
  {
    var before := times[..k];
    assert forall j :: 0 <= j < k ==> Gap(start, before, j) == Gap(start, times, j);
    GapsInOrder(start, before);
    TokensInRange(p, start, before);
    LastRefill(p, start, before);
    MulMono(p.rate, g, Gap(start, times, k));
    DominatedByIdeal(p, start, times, k);
  }

  lemma WholeRateWholeGap(rate: int, gap: int)
    requires rate % SECOND == 0
    ensures rate * gap % SECOND == 0
  {
    assert rate == SECOND * (rate / SECOND);
    WholeMultiple(rate / SECOND * gap);
    assert rate * gap == SECOND * (rate / SECOND * gap);
  }

  lemma WholeMultiple(x: int)
    ensures SECOND * x % SECOND == 0
  {
  }

  /** Two full buckets stay the same when any positive gap fills them. */
  lemma {:induction false} RefillsAtOnce(p: Params, start: int, times: seq<int>)
    requires p.Valid() && p.burst > 0 && p.rate >= p.burst * SECOND && GapsAtLeast(start, times, 0)
    ensures After(p, start, times).tokens as real == IdealAfter(p, start, times).level
    ensures forall k :: 0 <= k < |times| ==> (Allowed(p, start, times, k) <==> IdealAllowed(p, start, times, k))
  {
    if times == [] {
    } else {
      var n := |times| - 1;
      var before := times[..n];
      assert forall k :: 0 <= k < n ==> Gap(start, before, k) == Gap(start, times, k);
      RefillsAtOnce(p, start, before);
      GapsInOrder(start, before);
      TokensInRange(p, start, before);
      DominatedInvariant(p, start, before);
      LastRefill(p, start, before);
      assert Gap(start, times, n) >= 0;
      SameRefill(p, After(p, start, before), IdealAfter(p, start, before), times[n]);
      forall k | 0 <= k < n
        ensures Allowed(p, start, times, k) <==> IdealAllowed(p, start, times, k)
      {
        assert before[..k] == times[..k];
        assert Allowed(p, start, before, k) <==> IdealAllowed(p, start, before, k);
      }
    }
  }

  lemma SameRefill(p: Params, b: Bucket, i: Ideal, now: int)
    requires p.Valid() && p.burst > 0 && p.rate >= p.burst * SECOND
    requires b.lastRefill == i.lastRefill <= now && b.tokens as real == i.level && 0 <= b.tokens <= p.burst
    ensures Refilled(p, b, now) as real == IdealRefilled(p, i, now)
  {
    var elapsed := now - b.lastRefill;
    if elapsed > 0 {
      MulMono(p.rate, 1, elapsed);
      FloorBelow(p.rate * elapsed);
      assert Added(p, elapsed) >= p.burst;
    }
  }

  // ---- Schedules on which the buckets differ ----

  function LastTime(start: int, times: seq<int>): int {
    if times == [] then start else times[|times| - 1]
  }

  lemma OneMoreCall(p: Params, start: int, times: seq<int>, t: int)
    ensures After(p, start, times + [t]) == Step(p, After(p, start, times), t).0
    ensures IdealAfter(p, start, times + [t]) == IdealStep(p, IdealAfter(p, start, times), t).0
    ensures Allowed(p, start, times + [t], |times|) == Step(p, After(p, start, times), t).1
    ensures IdealAllowed(p, start, times + [t], |times|) == IdealStep(p, IdealAfter(p, start, times), t).1
    ensures After(p, start, times).lastRefill == IdealAfter(p, start, times).lastRefill == LastTime(start, times)
  {
    assert (times + [t])[..|times|] == times;
    DominatedInvariant(p, start, times);
  }

  lemma GapsAppend(start: int, times: seq<int>, t: int, g: int)
    requires GapsAtLeast(start, times, g) && t - LastTime(start, times) >= g
    ensures GapsAtLeast(start, times + [t], g)
  {
    forall k | 0 <= k < |times + [t]|
      ensures Gap(start, times + [t], k) >= g
    {
      if k < |times| {
        assert Gap(start, times + [t], k) == Gap(start, times, k);
      }
    }
  }

  /** A schedule that ends with a call only the ideal bucket allows. */
  ghost predicate Differs(p: Params, times: seq<int>, g: int) {
    && GapsAtLeast(0, times, g) && times != []
    && !Allowed(p, 0, times, |times| - 1) && IdealAllowed(p, 0, times, |times| - 1)
  }

  /** A bucket that is empty beside an ideal one that is at most full. */
  predicate Emptied(p: Params, b: Bucket, i: Ideal) {
    b.tokens == 0 && b.lastRefill == i.lastRefill && 0.0 <= i.level <= p.burst as real
  }

  predicate Parts(level: real, part: int, m: nat) {
    level >= 1.0 || level * SECOND as real >= m as real * part as real
  }

  /** A schedule after which the integer bucket is empty and the ideal one, on its way to a
      whole token, holds at least `m` parts of `part` / SECOND. */
  ghost predicate Behind(p: Params, times: seq<int>, g: int, part: int, m: nat) {
    && GapsAtLeast(0, times, g)
    && Emptied(p, After(p, 0, times), IdealAfter(p, 0, times))
    && Parts(IdealAfter(p, 0, times).level, part, m)
  }

  // Steady polling below one token.

  lemma DrainStep(p: Params, b: Bucket, i: Ideal, h: int)
    requires 1 <= b.tokens <= p.burst && b.lastRefill == i.lastRefill && b.tokens as real <= i.level <= p.burst as real
    requires 0 <= p.rate * h < SECOND
    ensures Step(p, b, b.lastRefill + h).0.tokens == b.tokens - 1
    ensures (b.tokens - 1) as real <= IdealStep(p, i, b.lastRefill + h).0.level <= p.burst as real
  {
    assert Added(p, h) == 0;
    FloorBelow(p.rate * h);
  }

  lemma {:induction false} SteadyDrain(p: Params, h: int, n: nat) returns (times: seq<int>)
    requires p.Valid() && n <= p.burst && h >= 0 && p.rate * h < SECOND
    ensures GapsAtLeast(0, times, h) && After(p, 0, times).tokens == p.burst - n
    ensures (p.burst - n) as real <= IdealAfter(p, 0, times).level <= p.burst as real
  {
    if n == 0 {
      times := [];
    } else {
      var before := SteadyDrain(p, h, n - 1);
      var t := LastTime(0, before) + h;
      times := before + [t];
      MulMono(p.rate, 0, h);
      OneMoreCall(p, 0, before, t);
      GapsAppend(0, before, t, h);
      LastRefill(p, 0, before);
      DominatedInvariant(p, 0, before);
      DrainStep(p, After(p, 0, before), IdealAfter(p, 0, before), h);
    }
  }

  lemma PartsAddUp(m: nat, part: int)
    ensures (m + 1) as real * part as real == m as real * part as real + part as real
  {
  }

  /** After a gap worth less than a token the integer bucket refuses, and the ideal one allows
      or has the gap's part of a token more. */
  lemma ShortGap(p: Params, b: Bucket, i: Ideal, h: int, m: nat)
    requires p.burst > 0 && Emptied(p, b, i) && 0 <= p.rate * h < SECOND && Parts(i.level, p.rate * h, m)
    ensures var (b', allowed) := Step(p, b, b.lastRefill + h);
      var (i', idealAllowed) := IdealStep(p, i, b.lastRefill + h);
      && !allowed && b'.tokens == 0
      && (i.level >= 1.0 ==> idealAllowed)
      && (!idealAllowed ==> 0.0 <= i'.level <= p.burst as real && Parts(i'.level, p.rate * h, m + 1))
  {
    PartsAddUp(m, p.rate * h);
    assert Added(p, h) == 0;
  }

  /** One more call: the integer bucket adds nothing and refuses, and the ideal one allows it or
      has one more part of a token. */
  lemma SteadyStep(p: Params, h: int, times: seq<int>, m: nat) returns (times': seq<int>)
    requires p.Valid() && p.burst > 0 && h >= 1 && p.rate * h < SECOND
    requires Behind(p, times, h, p.rate * h, m)
    ensures Differs(p, times', h) || Behind(p, times', h, p.rate * h, m + 1)
    ensures IdealAfter(p, 0, times).level >= 1.0 ==> Differs(p, times', h)
  {
    var t := LastTime(0, times) + h;
    MulMono(p.rate, 1, h);
    OneMoreCall(p, 0, times, t);
    GapsAppend(0, times, t, h);
    ShortGap(p, After(p, 0, times), IdealAfter(p, 0, times), h, m);
    times' := times + [t];
  }

  lemma {:induction false} SteadyPursuit(p: Params, h: int, m: nat) returns (times: seq<int>)
    requires p.Valid() && p.burst > 0 && h >= 1 && p.rate * h < SECOND
    ensures Differs(p, times, h) || Behind(p, times, h, p.rate * h, m)
  {
    if m == 0 {
      times := SteadyDrain(p, h, p.burst);
    } else {
      times := SteadyPursuit(p, h, m - 1);
      if !Differs(p, times, h) {
        times := SteadyStep(p, h, times, m - 1);
      }
    }
  }

  /** After enough parts a whole token is there. */
  lemma WholeToken(p: Params, times: seq<int>, g: int, part: int)
    requires Behind(p, times, g, part, SECOND) && part >= 1
    ensures IdealAfter(p, 0, times).level >= 1.0
  {
    assert SECOND as real * part as real >= SECOND as real;
  }

  lemma SteadyDiffers(p: Params, h: int) returns (times: seq<int>)
    requires p.Valid() && p.burst > 0 && h >= 1 && p.rate * h < SECOND
    ensures Differs(p, times, h)
  {
    times := SteadyPursuit(p, h, SECOND);
    if !Differs(p, times, h) {
      MulMono(p.rate, 1, h);
      WholeToken(p, times, h, p.rate * h);
      times := SteadyStep(p, h, times, SECOND);
    }
  }

  // Coinciding calls at a rate above one token per nanosecond.

  /** A call that coincides with the latest one takes a token from both buckets. */
  lemma CoincidingCall(p: Params, b: Bucket, i: Ideal)
    requires 1 <= b.tokens <= p.burst && b.lastRefill == i.lastRefill && b.tokens as real <= i.level <= p.burst as real
    ensures Step(p, b, b.lastRefill) == (b.(tokens := b.tokens - 1), true)
    ensures IdealStep(p, i, b.lastRefill) == (i.(level := i.level - 1.0), true)
  {
    assert p.rate * 0 == 0;
  }

  lemma {:induction false} DrainAtOnce(p: Params, times: seq<int>, n: nat) returns (times': seq<int>)
    requires p.Valid() && GapsAtLeast(0, times, 0) && n <= After(p, 0, times).tokens <= p.burst
    requires After(p, 0, times).tokens as real <= IdealAfter(p, 0, times).level <= p.burst as real
    ensures GapsAtLeast(0, times', 0)
    ensures After(p, 0, times').tokens == After(p, 0, times).tokens - n
    ensures IdealAfter(p, 0, times').level == IdealAfter(p, 0, times).level - n as real
    decreases n
  {
    if n == 0 {
      times' := times;
    } else {
      var t := LastTime(0, times);
      OneMoreCall(p, 0, times, t);
      GapsAppend(0, times, t, 0);
      CoincidingCall(p, After(p, 0, times), IdealAfter(p, 0, times));
      times' := DrainAtOnce(p, times + [t], n - 1);
    }
  }

  /** After a nanosecond the integer bucket has its whole tokens, and the ideal one their
      fraction on top, as far as it fits. */
  lemma Nanosecond(p: Params, b: Bucket, i: Ideal, m: nat)
    requires p.Valid() && SECOND <= p.rate < p.burst * SECOND
    requires Emptied(p, b, i) && i.level < 1.0 && Parts(i.level, p.rate % SECOND, m)
    ensures var (b', allowed) := Step(p, b, b.lastRefill + 1);
      var (i', idealAllowed) := IdealStep(p, i, b.lastRefill + 1);
      && b'.tokens == p.rate / SECOND - 1 && 0 <= b'.tokens <= p.burst
      && b'.tokens as real <= i'.level <= p.burst as real
      && Parts(i'.level - b'.tokens as real, p.rate % SECOND, m + 1)
  {
    PartsAddUp(m, p.rate % SECOND);
    assert p.rate == SECOND * (p.rate / SECOND) + p.rate % SECOND;
    assert p.rate * 1 == p.rate;
  }

  /** A nanosecond passes and its whole tokens are used up: the ideal bucket keeps the
      fraction. */
  lemma CycleStep(p: Params, times: seq<int>, m: nat) returns (times': seq<int>)
    requires p.Valid() && SECOND <= p.rate < p.burst * SECOND
    requires Behind(p, times, 0, p.rate % SECOND, m)
    ensures Differs(p, times', 0) || Behind(p, times', 0, p.rate % SECOND, m + 1)
    ensures IdealAfter(p, 0, times).level >= 1.0 ==> Differs(p, times', 0)
  {
    var last, b, i := LastTime(0, times), After(p, 0, times), IdealAfter(p, 0, times);
    if i.level >= 1.0 {
      assert p.rate * 0 == 0;
      OneMoreCall(p, 0, times, last);
      GapsAppend(0, times, last, 0);
      ShortGap(p, b, i, 0, 0);
      times' := times + [last];
    } else {
      OneMoreCall(p, 0, times, last + 1);
      GapsAppend(0, times, last + 1, 0);
      Nanosecond(p, b, i, m);
      times' := DrainAtOnce(p, times + [last + 1], p.rate / SECOND - 1);
      DominatedInvariant(p, 0, times');
    }
  }

  lemma {:induction false} CyclePursuit(p: Params, m: nat) returns (times: seq<int>)
    requires p.Valid() && SECOND <= p.rate < p.burst * SECOND
    ensures Differs(p, times, 0) || Behind(p, times, 0, p.rate % SECOND, m)
  {
    if m == 0 {
      times := DrainAtOnce(p, [], p.burst);
    } else {
      times := CyclePursuit(p, m - 1);
      if !Differs(p, times, 0) {
        times := CycleStep(p, times, m - 1);
      }
    }
  }

  lemma CycleDiffers(p: Params) returns (times: seq<int>)
    requires p.Valid() && SECOND <= p.rate < p.burst * SECOND && p.rate % SECOND != 0
    ensures Differs(p, times, 0)
  {
    times := CyclePursuit(p, SECOND);
    if !Differs(p, times, 0) {
      WholeToken(p, times, 0, p.rate % SECOND);
      times := CycleStep(p, times, SECOND);
    }
  }

  /** The integer bucket serves exactly what the ideal one serves, on all schedules with gaps of
      at least `g`, if and only if the rate, the burst and `g` are lossless together. */
  lemma SameAnswersIff(p: Params, g: int)
    requires p.Valid() && g >= 0
    ensures SameAnswers(p, g) <==> Lossless(p, g)
  {
    if Lossless(p, g) {
      forall start: int, times: seq<int>, k: nat | GapsAtLeast(start, times, g) && k < |times|
        ensures Allowed(p, start, times, k) <==> IdealAllowed(p, start, times, k)
      {
        LosslessAnswers(p, g, start, times, k);
      }
    } else {
      var times;
      if g >= 1 {
        times := SteadyDiffers(p, g);
      } else if p.rate < SECOND {
        times := SteadyDiffers(p, 1);
      } else {
        times := CycleDiffers(p);
      }
      assert GapsAtLeast(0, times, g);
      assert |times| - 1 < |times|;
    }
  }

  lemma LosslessAnswers(p: Params, g: int, start: int, times: seq<int>, k: nat)
    requires p.Valid() && g >= 0 && Lossless(p, g) && GapsAtLeast(start, times, g) && k < |times|
    ensures Allowed(p, start, times, k) <==> IdealAllowed(p, start, times, k)
  {
    if p.burst <= 0 {
      NothingAllowed(p, start, times, k);
    } else if p.rate * g >= SECOND {
      EveryCallAllowed(p, g, start, times, k);
    } else if p.rate % SECOND == 0 {
      forall j | 0 <= j < |times|
        ensures p.rate * Gap(start, times, j) % SECOND == 0
      {
        WholeRateWholeGap(p.rate, Gap(start, times, j));
      }
      WholeGapsLoseNothing(p, start, times);
    } else {
      RefillsAtOnce(p, start, times);
    }
  }
}
