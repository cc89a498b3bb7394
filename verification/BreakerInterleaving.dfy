/** The breaker of pkg/errors/recovery.go shared by any number of callers. Every action is
    one critical section (or the passing of time), so the runs below are exactly the
    interleavings that the two kinds of lock permit. */
module BreakerInterleaving {
  import opened Common
  import opened Breaker

  /** Where a caller stands: outside, between giving up the read lock and getting the write
      lock, between the write lock and the second read lock, or running its function. */
  datatype Pc = Idle | Upgrading | Rereading | InFlight

  datatype System = System(now: int, cb: Core, pcs: seq<Pc>)

  datatype Action =
    | Tick(d: nat)
    | Check(i: nat)
    | Upgrade(i: nat)
    | Reread(i: nat)
    | Finish(i: nat, ok: bool)
    | Abandon(i: nat)  // the function panics, and no outcome is recorded

  predicate Enabled(s: System, a: Action) {
    match a
    case Tick(_) => true
    case Check(i) => i < |s.pcs| && s.pcs[i].Idle?
    case Upgrade(i) => i < |s.pcs| && s.pcs[i].Upgrading?
    case Reread(i) => i < |s.pcs| && s.pcs[i].Rereading?
    case Finish(i, _) => i < |s.pcs| && s.pcs[i].InFlight?
    case Abandon(i) => i < |s.pcs| && s.pcs[i].InFlight?
  }

  function Apply(c: Config, s: System, a: Action): System
    requires Enabled(s, a)
  {
    match a
    case Tick(d) => s.(now := s.now + d)
    case Check(i) =>
      (match ReadCheck(c, s.cb, s.now)
       case Admit => s.(pcs := s.pcs[i := InFlight])
       case Refuse => s
       case TryUpgrade => s.(pcs := s.pcs[i := Upgrading]))
    case Upgrade(i) => s.(cb := UpgradeIfCooled(c, s.cb, s.now), pcs := s.pcs[i := Rereading])
    case Reread(i) => s.(pcs := s.pcs[i := if s.cb.state.HalfOpen? then InFlight else Idle])
    case Finish(i, ok) => s.(cb := OnOutcome(c, s.cb, ok, s.now), pcs := s.pcs[i := Idle])
    case Abandon(i) => s.(pcs := s.pcs[i := Idle])
  }

  /** The gate answers yes. */
  predicate Admits(c: Config, s: System, a: Action) {
    Enabled(s, a) && (a.Check? || a.Reread?) && Apply(c, s, a).pcs[a.i].InFlight?
  }

  /** The gate answers no. */
  predicate Refuses(c: Config, s: System, a: Action) {
    Enabled(s, a) && (a.Check? || a.Reread?) && Apply(c, s, a).pcs[a.i].Idle?
  }

  /** The breaker opens. */
  predicate Trips(c: Config, s: System, a: Action) {
    Enabled(s, a) && !s.cb.state.Open? && Apply(c, s, a).cb.state.Open?
  }

  predicate Initial(s: System) {
    s.cb == FRESH && forall i :: 0 <= i < |s.pcs| ==> s.pcs[i] == Idle
  }

  ghost predicate Run(c: Config, ss: seq<System>, acts: seq<Action>) {
    && c.Valid()
    && |ss| == |acts| + 1
    && Initial(ss[0])
    && forall k :: 0 <= k < |acts| ==> Enabled(ss[k], acts[k]) && ss[k + 1] == Apply(c, ss[k], acts[k])
  }

  // ---- The state invariant ----

  lemma {:induction false} StateInvariant(c: Config, ss: seq<System>, acts: seq<Action>, k: nat)
    requires Run(c, ss, acts) && k <= |acts|
    ensures Inv(c, ss[k].cb)
    ensures |ss[k].pcs| == |ss[0].pcs| && ss[0].now <= ss[k].now
  {
    if k == 0 {
    } else {
      StateInvariant(c, ss, acts, k - 1);
      assert Enabled(ss[k - 1], acts[k - 1]) && ss[k] == Apply(c, ss[k - 1], acts[k - 1]);
    }
  }

  // ---- Cool-down ----

  /** From a trip on, either the breaker is still in the cool-down of that very trip or the
      cool-down is over. */
  lemma {:induction false} CoolingOrCooled(c: Config, ss: seq<System>, acts: seq<Action>, i: nat, k: nat)
    requires Run(c, ss, acts) && i < k <= |acts| && Trips(c, ss[i], acts[i])
    ensures ss[i].now <= ss[k].now
    ensures ss[k].now > ss[i].now + c.resetTimeout
            || (ss[k].cb.state.Open? && ss[k].cb.lastFailTime == ss[i].now)
  {
    if k == i + 1 {
    } else {
      CoolingOrCooled(c, ss, acts, i, k - 1);
    }
    assert Enabled(ss[k - 1], acts[k - 1]) && ss[k] == Apply(c, ss[k - 1], acts[k - 1]);
  }

  /** Whatever the interleaving, no caller is let through until more than the reset timeout
      has passed since the latest trip (or any earlier one). */
  lemma NoAdmissionDuringCooldown(c: Config, ss: seq<System>, acts: seq<Action>, i: nat, j: nat)
    requires Run(c, ss, acts) && i < j < |acts|
    requires Trips(c, ss[i], acts[i]) && Admits(c, ss[j], acts[j])
    ensures ss[j].now > ss[i].now + c.resetTimeout
  {
    CoolingOrCooled(c, ss, acts, i, j);
  }

  lemma TripsAreApart(c: Config, ss: seq<System>, acts: seq<Action>, i: nat, j: nat)
    requires Run(c, ss, acts) && i < j < |acts|
    requires Trips(c, ss[i], acts[i]) && Trips(c, ss[j], acts[j])
    ensures ss[j].now > ss[i].now + c.resetTimeout
  {
    CoolingOrCooled(c, ss, acts, i, j);
  }

  // ---- What trips the breaker ----

  /** Length of the run of failures that ends the outcomes recorded by `acts`. */
  function Trailing(acts: seq<Action>): nat {
    if acts == [] then 0
    else
      var a := acts[|acts| - 1];
      if a.Finish? then (if a.ok then 0 else 1 + Trailing(acts[..|acts| - 1]))
      else Trailing(acts[..|acts| - 1])
  }

  lemma {:induction false} ClosedCountsTrailing(c: Config, ss: seq<System>, acts: seq<Action>, k: nat)
    requires Run(c, ss, acts) && k <= |acts|
    ensures ss[k].cb.state.Closed? ==> ss[k].cb.failures == Trailing(acts[..k])
  {
    if k == 0 {
    } else {
      ClosedCountsTrailing(c, ss, acts, k - 1);
      assert Enabled(ss[k - 1], acts[k - 1]) && ss[k] == Apply(c, ss[k - 1], acts[k - 1]);
      assert acts[..k][..k - 1] == acts[..k - 1];
    }
  }

  /** A closed breaker opens exactly when the recorded failures since the last recorded
      success reach the limit; a half-open one opens exactly on a failure. */
  lemma TripsExactlyWhen(c: Config, ss: seq<System>, acts: seq<Action>, k: nat)
    requires Run(c, ss, acts) && k < |acts|
    ensures ss[k].cb.state.Closed? ==>
              (Trips(c, ss[k], acts[k]) <==> acts[k].Finish? && Trailing(acts[..k + 1]) == c.maxFailures)
    ensures ss[k].cb.state.HalfOpen? ==>
              (Trips(c, ss[k], acts[k]) <==> acts[k].Finish? && !acts[k].ok)
  {
    StateInvariant(c, ss, acts, k);
    ClosedCountsTrailing(c, ss, acts, k);
    assert acts[..k + 1][..k] == acts[..k];
    assert Enabled(ss[k], acts[k]);
  }

  // ---- The half-open state ----

  /** A half-open breaker lets every caller in, so it can always make progress. */
  lemma HalfOpenAdmitsEveryone(c: Config, ss: seq<System>, acts: seq<Action>, k: nat, i: nat)
    requires Run(c, ss, acts) && k <= |acts| && ss[k].cb.state.HalfOpen?
    requires i < |ss[k].pcs| && (ss[k].pcs[i].Idle? || ss[k].pcs[i].Rereading?)
    ensures Admits(c, ss[k], if ss[k].pcs[i].Idle? then Check(i) else Reread(i))
  {
    StateInvariant(c, ss, acts, k);
    assert c.Quota() <= c.halfOpenMaxCalls;
  }

  predicate Failing(a: Action) {
    a.Finish? && !a.ok
  }

  function Successes(acts: seq<Action>): nat {
    if acts == [] then 0
    else Successes(acts[..|acts| - 1]) + (if acts[|acts| - 1].Finish? && acts[|acts| - 1].ok then 1 else 0)
  }

  lemma SuccessesUpTo(acts: seq<Action>, j: nat, k: nat)
    requires j < k <= |acts|
    ensures Successes(acts[j..k])
            == Successes(acts[j..k - 1]) + (if acts[k - 1].Finish? && acts[k - 1].ok then 1 else 0)
  {
    assert acts[j..k][..k - 1 - j] == acts[j..k - 1];
  }

  /** The breaker after `n` successes and no failure, from a half-open state that had counted
      `counted` of them. */
  predicate TowardsQuota(c: Config, counted: int, b: Core, n: nat) {
    var left := c.Quota() - counted;
    && left > 0
    && (n < left ==> b.state.HalfOpen? && b.halfOpenSuccesses == counted + n)
    && (n >= left ==> b.state.Closed?)
  }

  lemma TowardsQuotaStep(c: Config, counted: int, s: System, a: Action, n: nat)
    requires c.Valid() && Inv(c, s.cb) && Enabled(s, a) && !Failing(a) && TowardsQuota(c, counted, s.cb, n)
    ensures TowardsQuota(c, counted, Apply(c, s, a).cb, n + (if a.Finish? && a.ok then 1 else 0))
  {
  }

  /** While no failure is recorded a half-open breaker stays half-open and counts the
      successes, until they make up the quota; then it closes and stays closed. */
  lemma {:induction false} HalfOpenClosesAfterQuota(c: Config, ss: seq<System>, acts: seq<Action>, j: nat, k: nat)
    requires Run(c, ss, acts) && j <= k <= |acts| && ss[j].cb.state.HalfOpen?
    requires forall m :: j <= m < k ==> !Failing(acts[m])
    ensures TowardsQuota(c, ss[j].cb.halfOpenSuccesses, ss[k].cb, Successes(acts[j..k]))
  {
    if k == j {
      StateInvariant(c, ss, acts, j);
    } else {
      HalfOpenClosesAfterQuota(c, ss, acts, j, k - 1);
      StateInvariant(c, ss, acts, k - 1);
      SuccessesUpTo(acts, j, k);
      TowardsQuotaStep(c, ss[j].cb.halfOpenSuccesses, ss[k - 1], acts[k - 1], Successes(acts[j..k - 1]));
    }
  }

  // ---- Load on a backend that only fails ----

  function CountInFlight(pcs: seq<Pc>): (n: nat)
    ensures n <= |pcs|
  {
    if pcs == [] then 0 else CountInFlight(pcs[1..]) + (if pcs[0].InFlight? then 1 else 0)
  }

  lemma {:induction false} CountInFlightUpdate(pcs: seq<Pc>, i: nat, p: Pc)
    requires i < |pcs|
    ensures CountInFlight(pcs[i := p])
            == CountInFlight(pcs) - (if pcs[i].InFlight? then 1 else 0) + (if p.InFlight? then 1 else 0)
  {
    if i == 0 {
      assert pcs[0 := p][1..] == pcs[1..];
    } else {
      CountInFlightUpdate(pcs[1..], i - 1, p);
      assert pcs[i := p][1..] == pcs[1..][i - 1 := p];
    }
  }

  lemma {:induction false} NoneInFlight(pcs: seq<Pc>)
    requires forall i :: 0 <= i < |pcs| ==> pcs[i] == Idle
    ensures CountInFlight(pcs) == 0
  {
    if pcs == [] {
    } else {
      NoneInFlight(pcs[1..]);
    }
  }

  /** Calls that ended in the first `k` steps, with an outcome or without. */
  function Departures(acts: seq<Action>): nat {
    if acts == [] then 0
    else
      var a := acts[|acts| - 1];
      Departures(acts[..|acts| - 1]) + (if a.Finish? || a.Abandon? then 1 else 0)
  }

  /** Calls let through in the first `k` steps. */
  ghost function Admissions(c: Config, ss: seq<System>, acts: seq<Action>, k: nat): nat
    requires Run(c, ss, acts) && k <= |acts|
  {
    if k == 0 then 0
    else Admissions(c, ss, acts, k - 1) + (if Admits(c, ss[k - 1], acts[k - 1]) then 1 else 0)
  }

  lemma InFlightStep(c: Config, s: System, a: Action)
    requires Enabled(s, a)
    ensures CountInFlight(Apply(c, s, a).pcs)
            == CountInFlight(s.pcs) + (if Admits(c, s, a) then 1 else 0)
               - (if a.Finish? || a.Abandon? then 1 else 0)
  {
    if !a.Tick? {
      var s' := Apply(c, s, a);
      CountInFlightUpdate(s.pcs, a.i, s'.pcs[a.i]);
      assert s'.pcs == s.pcs[a.i := s'.pcs[a.i]];
    }
  }

  /** In every state of every run the calls in flight are those let through and not yet ended. */
  lemma {:induction false} InFlightIsBalance(c: Config, ss: seq<System>, acts: seq<Action>, k: nat)
    requires Run(c, ss, acts) && k <= |acts|
    ensures CountInFlight(ss[k].pcs) == Admissions(c, ss, acts, k) - Departures(acts[..k])
  {
    if k == 0 {
      NoneInFlight(ss[0].pcs);
    } else {
      InFlightIsBalance(c, ss, acts, k - 1);
      assert Enabled(ss[k - 1], acts[k - 1]) && ss[k] == Apply(c, ss[k - 1], acts[k - 1]);
      InFlightStep(c, ss[k - 1], acts[k - 1]);
      assert acts[..k][..k - 1] == acts[..k - 1];
    }
  }

  predicate OnlyFails(a: Action) {
    !a.Abandon? && (a.Finish? ==> !a.ok)
  }

  /** `probes` counts the times the breaker went half-open. */
  predicate LoadInv(c: Config, start: int, s: System, admissions: nat, probes: nat) {
    var n := |s.pcs|;
    var flying := CountInFlight(s.pcs);
    && (s.cb.state.Closed? ==> probes == 0 && admissions == s.cb.failures + flying)
    && (s.cb.state.HalfOpen? ==>
          && admissions <= c.maxFailures - 1 + n * probes + flying
          && s.now >= start + probes * (c.resetTimeout + 1))
    && (s.cb.state.Open? ==>
          && admissions <= c.maxFailures - 1 + n * probes + n
          && s.now >= s.cb.lastFailTime >= start + probes * (c.resetTimeout + 1))
  }

  lemma LoadStep(c: Config, start: int, s: System, a: Action, admissions: nat, probes: nat)
    requires c.Valid() && Inv(c, s.cb) && LoadInv(c, start, s, admissions, probes) && start <= s.now
    requires Enabled(s, a) && OnlyFails(a)
    ensures var s' := Apply(c, s, a);
      LoadInv(c, start, s', admissions + (if Admits(c, s, a) then 1 else 0),
              probes + (if s.cb.state.Open? && s'.cb.state.HalfOpen? then 1 else 0))
  {
    var s' := Apply(c, s, a);
    if !a.Tick? {
      CountInFlightUpdate(s.pcs, a.i, s'.pcs[a.i]);
      assert s'.pcs == s.pcs[a.i := s'.pcs[a.i]];
    }
    if a.Upgrade? {
      assert |s.pcs| * (probes + 1) == |s.pcs| * probes + |s.pcs|;
      assert (probes + 1) * (c.resetTimeout + 1) == probes * (c.resetTimeout + 1) + c.resetTimeout + 1;
    }
  }

  lemma {:induction false} LoadInvariant(c: Config, ss: seq<System>, acts: seq<Action>, k: nat) returns (probes: nat)
    requires Run(c, ss, acts) && k <= |acts|
    requires forall m :: 0 <= m < k ==> OnlyFails(acts[m])
    ensures LoadInv(c, ss[0].now, ss[k], Admissions(c, ss, acts, k), probes)
  {
    if k == 0 {
      NoneInFlight(ss[0].pcs);
      return 0;
    }
    probes := LoadInvariant(c, ss, acts, k - 1);
    StateInvariant(c, ss, acts, k - 1);
    assert Enabled(ss[k - 1], acts[k - 1]) && ss[k] == Apply(c, ss[k - 1], acts[k - 1]);
    LoadStep(c, ss[0].now, ss[k - 1], acts[k - 1], Admissions(c, ss, acts, k - 1), probes);
    probes := probes + (if ss[k - 1].cb.state.Open? && ss[k].cb.state.HalfOpen? then 1 else 0);
  }

  /** Calls that `n` callers get through when the breaker goes half-open `rounds` times. */
  function MaxLoad(c: Config, n: nat, rounds: int): int {
    c.maxFailures - 1 + n * (1 + rounds)
  }

  /** With n callers and a function that always fails, every interleaving lets through at
      most maxFailures - 1 + n calls, and n more each time the reset timeout is exceeded. */
  lemma LoadBound(c: Config, ss: seq<System>, acts: seq<Action>, k: nat)
    requires Run(c, ss, acts) && k <= |acts|
    requires forall m :: 0 <= m < k ==> OnlyFails(acts[m])
    ensures ss[0].now <= ss[k].now
    ensures Admissions(c, ss, acts, k)
            <= MaxLoad(c, |ss[0].pcs|, (ss[k].now - ss[0].now) / (c.resetTimeout + 1))
  {
    StateInvariant(c, ss, acts, k);
    var probes := LoadInvariant(c, ss, acts, k);
    LoadInvGivesBound(c, ss[0].now, ss[k], Admissions(c, ss, acts, k), probes);
  }

  lemma LoadInvGivesBound(c: Config, start: int, s: System, admissions: nat, probes: nat)
    requires c.Valid() && Inv(c, s.cb) && LoadInv(c, start, s, admissions, probes) && start <= s.now
    ensures admissions <= MaxLoad(c, |s.pcs|, (s.now - start) / (c.resetTimeout + 1))
  {
    var n, unit := |s.pcs|, c.resetTimeout + 1;
    var periods := (s.now - start) / unit;
    QuotientBounds(s.now - start, unit, probes);
    assert probes <= periods;
    assert admissions <= c.maxFailures - 1 + n * probes + n;
    MulMono(n, probes + 1, 1 + periods);
    assert n * (probes + 1) == n * probes + n;
  }

  // ---- The gate as the object runs it ----

  /** The three sections of one caller, run with nobody in between, amount to `Allow`, whatever
      the time `d` that it takes to get the write lock. */
  lemma UninterruptedGate(c: Config, s: System, i: nat, d: nat)
    requires Enabled(s, Check(i))
    ensures var s1 := Apply(c, s, Check(i));
      if s1.pcs[i].Upgrading? then
        var s2 := Apply(c, Apply(c, s1, Tick(d)), Upgrade(i));
        var s3 := Apply(c, s2, Reread(i));
        (s3.cb, s3.pcs[i].InFlight?) == Allow(c, s.cb, s.now, s.now + d)
      else (s1.cb, s1.pcs[i].InFlight?) == Allow(c, s.cb, s.now, s.now + d)
  {
  }

  /** The gate refuses exactly during a cool-down, plus in one case the uninterrupted gate
      never meets: a caller that went for the write lock finds the breaker no longer half-open
      when it looks again. If it was closed meanwhile, the caller is refused by a closed breaker. */
  lemma RefusesExactlyWhen(c: Config, ss: seq<System>, acts: seq<Action>, k: nat)
    requires Run(c, ss, acts) && k < |acts|
    ensures Refuses(c, ss[k], acts[k]) <==>
              || (acts[k].Check? && ss[k].cb.state.Open? && !Cooled(c, ss[k].cb, ss[k].now))
              || (acts[k].Reread? && !ss[k].cb.state.HalfOpen?)
  {
    StateInvariant(c, ss, acts, k);
    assert Enabled(ss[k], acts[k]);
    assert c.Quota() <= c.halfOpenMaxCalls;
  }

  // ---- Building runs ----

  lemma Start(c: Config, n: nat) returns (ss: seq<System>, acts: seq<Action>)
    requires c.Valid()
    ensures Run(c, ss, acts) && ss[|acts|] == System(0, FRESH, seq(n, _ => Idle))
  {
    ss, acts := [System(0, FRESH, seq(n, _ => Idle))], [];
  }

  lemma Extend(c: Config, ss: seq<System>, acts: seq<Action>, a: Action) returns (ss': seq<System>, acts': seq<Action>)
    requires Run(c, ss, acts) && Enabled(ss[|acts|], a)
    ensures acts' == acts + [a] && ss' == ss + [Apply(c, ss[|acts|], a)]
    ensures Run(c, ss', acts')
  {
    ss', acts' := ss + [Apply(c, ss[|acts|], a)], acts + [a];
  }

  /** Caller 0 fails `f` times in a row at instant 0. */
  lemma {:induction false} FailRepeatedly(c: Config, n: nat, f: nat) returns (ss: seq<System>, acts: seq<Action>)
    requires c.Valid() && 0 < n && f <= c.maxFailures
    ensures Run(c, ss, acts)
    ensures ss[|acts|] == System(0, Core(if f < c.maxFailures then Closed else Open, f, 0, 0, 0), seq(n, _ => Idle))
  {
    if f == 0 {
      ss, acts := Start(c, n);
    } else {
      ss, acts := FailRepeatedly(c, n, f - 1);
      ss, acts := Extend(c, ss, acts, Check(0));
      ss, acts := Extend(c, ss, acts, Finish(0, false));
      assert ss[|acts|].pcs == seq(n, _ => Idle);
    }
  }

  /** The first `m` of `n` callers are all inside the half-open breaker. */
  lemma {:induction false} CrowdHalfOpen(c: Config, n: nat, m: nat) returns (ss: seq<System>, acts: seq<Action>)
    requires c.Valid() && 0 < m <= n
    ensures Run(c, ss, acts)
    ensures ss[|acts|].cb == Core(HalfOpen, c.maxFailures, 0, 0, 0)
    ensures ss[|acts|].pcs == seq(n, i => if i < m then InFlight else Idle)
  {
    if m == 1 {
      ss, acts := FailRepeatedly(c, n, c.maxFailures);
      ss, acts := Extend(c, ss, acts, Tick(c.resetTimeout + 1));
      ss, acts := Extend(c, ss, acts, Check(0));
      ss, acts := Extend(c, ss, acts, Upgrade(0));
      ss, acts := Extend(c, ss, acts, Reread(0));
    } else {
      ss, acts := CrowdHalfOpen(c, n, m - 1);
      ss, acts := Extend(c, ss, acts, Check(m - 1));
    }
  }

  lemma {:induction false} AllInFlight(pcs: seq<Pc>)
    requires forall i :: 0 <= i < |pcs| ==> pcs[i] == InFlight
    ensures CountInFlight(pcs) == |pcs|
  {
    if pcs == [] {
    } else {
      AllInFlight(pcs[1..]);
    }
  }

  ghost predicate HalfOpenLimitHolds(c: Config, n: nat) {
    forall ss: seq<System>, acts: seq<Action> :: Run(c, ss, acts) && |ss[0].pcs| == n && ss[|acts|].cb.state.HalfOpen?
      ==> CountInFlight(ss[|acts|].pcs) <= c.halfOpenMaxCalls
  }

  /** The configured number of half-open calls bounds the calls in flight in the half-open
      state only when there are no more callers than that in the first place. */
  lemma HalfOpenLimitIsVacuous(c: Config, n: nat)
    requires c.Valid()
    ensures HalfOpenLimitHolds(c, n) <==> n <= c.halfOpenMaxCalls
  {
    if n <= c.halfOpenMaxCalls {
      forall ss: seq<System>, acts: seq<Action> | Run(c, ss, acts) && |ss[0].pcs| == n
        ensures CountInFlight(ss[|acts|].pcs) <= c.halfOpenMaxCalls
      {
        StateInvariant(c, ss, acts, |acts|);
      }
    } else {
      var ss, acts := CrowdHalfOpen(c, n, n);
      StateInvariant(c, ss, acts, |acts|);
      AllInFlight(ss[|acts|].pcs);
    }
  }

  // ---- Callers refused by a closed breaker ----

  /** With a single caller nothing changes between its sections. */
  predicate SoloPc(c: Config, s: System, pc: Pc) {
    match pc
    case Idle => true
    case Upgrading => s.cb.state.Open? && Cooled(c, s.cb, s.now)
    case Rereading => s.cb.state.HalfOpen?
    case InFlight => !s.cb.state.Open?
  }

  predicate SoloInv(c: Config, s: System) {
    Inv(c, s.cb) && (s.pcs == [] || (|s.pcs| == 1 && SoloPc(c, s, s.pcs[0])))
  }

  lemma {:induction false} SoloInvariant(c: Config, ss: seq<System>, acts: seq<Action>, k: nat)
    requires Run(c, ss, acts) && k <= |acts| && |ss[0].pcs| <= 1
    ensures SoloInv(c, ss[k])
  {
    if k == 0 {
    } else {
      SoloInvariant(c, ss, acts, k - 1);
      assert Enabled(ss[k - 1], acts[k - 1]) && ss[k] == Apply(c, ss[k - 1], acts[k - 1]);
    }
  }

  /** In no run of `n` callers does a closed breaker refuse one. */
  ghost predicate ClosedNeverRefuses(c: Config, n: nat) {
    forall ss: seq<System>, acts: seq<Action>, k: nat ::
      Run(c, ss, acts) && |ss[0].pcs| == n && k < |acts| && ss[k].cb.state.Closed?
      ==> !Refuses(c, ss[k], acts[k])
  }

  /** In all runs of `n` callers every refusal is due to a cool-down that is not over. */
  ghost predicate OnlyCooldownsRefuse(c: Config, n: nat) {
    forall ss: seq<System>, acts: seq<Action>, k: nat ::
      Run(c, ss, acts) && |ss[0].pcs| == n && k < |acts| && Refuses(c, ss[k], acts[k])
      ==> ss[k].cb.state.Open? && !Cooled(c, ss[k].cb, ss[k].now)
  }

  /** Any number of calls of caller 0 that succeed, from a half-open breaker on, while caller 1
      waits for the write lock. */
  lemma {:induction false} SucceedRepeatedly(c: Config, n: nat, m: nat) returns (ss: seq<System>, acts: seq<Action>)
    requires c.Valid() && n >= 2 && m < c.Quota()
    ensures Run(c, ss, acts) && |ss[0].pcs| == |ss[|acts|].pcs| == n
    ensures ss[|acts|].cb == Core(HalfOpen, c.maxFailures, 0, m, m)
    ensures ss[|acts|].pcs[0] == InFlight && ss[|acts|].pcs[1] == Upgrading
  {
    if m == 0 {
      ss, acts := FailRepeatedly(c, n, c.maxFailures);
      ss, acts := Extend(c, ss, acts, Tick(c.resetTimeout + 1));
      ss, acts := Extend(c, ss, acts, Check(0));
      ss, acts := Extend(c, ss, acts, Check(1));
      ss, acts := Extend(c, ss, acts, Upgrade(0));
      ss, acts := Extend(c, ss, acts, Reread(0));
    } else {
      ss, acts := SucceedRepeatedly(c, n, m - 1);
      ss, acts := Extend(c, ss, acts, Finish(0, true));
      ss, acts := Extend(c, ss, acts, Check(0));
    }
    StateInvariant(c, ss, acts, |acts|);
  }

  /** With two callers or more, every configuration has a run in which a closed breaker refuses
      one: it went for the write lock, and the other one's successes close the breaker before
      it looks again. */
  lemma ClosedBreakerRefuses(c: Config, n: nat) returns (ss: seq<System>, acts: seq<Action>, k: nat)
    requires c.Valid() && n >= 2
    ensures Run(c, ss, acts) && |ss[0].pcs| == n && k < |acts|
    ensures ss[k].cb.state.Closed? && Refuses(c, ss[k], acts[k])
  {
    ss, acts := SucceedRepeatedly(c, n, c.Quota() - 1);
    ss, acts := Extend(c, ss, acts, Finish(0, true));
    ss, acts := Extend(c, ss, acts, Upgrade(1));
    k := |acts|;
    ss, acts := Extend(c, ss, acts, Reread(1));
  }

  /** A caller can rely on being refused only by an open breaker in its cool-down, and on never
      being refused by a closed one, exactly when it has the breaker for itself. */
  lemma RefusalsJustifiedIff(c: Config, n: nat)
    requires c.Valid()
    ensures ClosedNeverRefuses(c, n) <==> n <= 1
    ensures OnlyCooldownsRefuse(c, n) <==> n <= 1
  {
    if n <= 1 {
      forall ss: seq<System>, acts: seq<Action>, k: nat
        | Run(c, ss, acts) && |ss[0].pcs| == n && k < |acts| && Refuses(c, ss[k], acts[k])
        ensures ss[k].cb.state.Open? && !Cooled(c, ss[k].cb, ss[k].now)
      {
        SoloInvariant(c, ss, acts, k);
        RefusesExactlyWhen(c, ss, acts, k);
      }
    } else {
      var ss, acts, k := ClosedBreakerRefuses(c, n);
    }
  }

  // ---- The load bound is reached ----

  /** The first `j` of `n` callers run their function. */
  function Crowd(n: nat, j: nat): seq<Pc> {
    seq(n, i => if i < j then InFlight else Idle)
  }

  lemma CrowdUpdate(n: nat, j: nat)
    requires j < n
    ensures Crowd(n, j)[j := InFlight] == Crowd(n, j + 1)
    ensures Crowd(n, j + 1)[j := Idle] == Crowd(n, j)
  {
  }

  /** A run with the number of calls that it let through. */
  datatype Load = Load(ss: seq<System>, acts: seq<Action>, admissions: int)

  /** `n` callers of a function that only fails, from instant 0 to the state `s`. */
  ghost predicate Loaded(c: Config, n: nat, l: Load, s: System) {
    && Run(c, l.ss, l.acts) && l.ss[0].now == 0 && |l.ss[0].pcs| == n
    && (forall m :: 0 <= m < |l.acts| ==> OnlyFails(l.acts[m]))
    && Admissions(c, l.ss, l.acts, |l.acts|) == l.admissions
    && l.ss[|l.acts|] == s
  }

  lemma {:induction false} AdmissionsPrefix(c: Config, ss: seq<System>, acts: seq<Action>, s: System, a: Action, k: nat)
    requires Run(c, ss, acts) && Run(c, ss + [s], acts + [a]) && k <= |acts|
    ensures Admissions(c, ss + [s], acts + [a], k) == Admissions(c, ss, acts, k)
  {
    if k == 0 {
    } else {
      AdmissionsPrefix(c, ss, acts, s, a, k - 1);
    }
  }

  lemma Continue(c: Config, n: nat, l: Load, s: System, a: Action) returns (l': Load)
    requires Loaded(c, n, l, s) && Enabled(s, a) && OnlyFails(a)
    ensures Loaded(c, n, l', Apply(c, s, a))
    ensures l'.admissions == l.admissions + (if Admits(c, s, a) then 1 else 0)
  {
    var ss, acts := Extend(c, l.ss, l.acts, a);
    AdmissionsPrefix(c, l.ss, l.acts, Apply(c, s, a), a, |l.acts|);
    l' := Load(ss, acts, Admissions(c, ss, acts, |acts|));
  }

  /** Caller 0 fails until one more failure would open the breaker. */
  lemma {:induction false} FailInTurn(c: Config, n: nat, f: nat) returns (l: Load)
    requires c.Valid() && n > 0 && f < c.maxFailures
    ensures Loaded(c, n, l, System(0, Core(Closed, f, 0, 0, 0), Crowd(n, 0))) && l.admissions == f
  {
    if f == 0 {
      var ss, acts := Start(c, n);
      l := Load([System(0, FRESH, Crowd(n, 0))], [], 0);
    } else {
      l := FailInTurn(c, n, f - 1);
      var s := System(0, Core(Closed, f - 1, 0, 0, 0), Crowd(n, 0));
      CrowdUpdate(n, 0);
      l := Continue(c, n, l, s, Check(0));
      l := Continue(c, n, l, s.(pcs := Crowd(n, 1)), Finish(0, false));
    }
  }

  /** The callers from `j` on enter as well. */
  lemma {:induction false} AllEnter(c: Config, n: nat, l: Load, s: System, j: nat) returns (l': Load)
    requires Loaded(c, n, l, s) && j <= n && s.pcs == Crowd(n, j)
    requires s.cb.state.Closed? || (s.cb.state.HalfOpen? && s.cb.halfOpenCalls == 0)
    ensures Loaded(c, n, l', s.(pcs := Crowd(n, n))) && l'.admissions == l.admissions + n - j
    decreases n - j
  {
    if j == n {
      l' := l;
    } else {
      CrowdUpdate(n, j);
      l' := Continue(c, n, l, s, Check(j));
      l' := AllEnter(c, n, l', s.(pcs := Crowd(n, j + 1)), j + 1);
    }
  }

  /** The first `j` callers fail behind an open breaker. */
  lemma {:induction false} AllLeave(c: Config, n: nat, l: Load, s: System, j: nat) returns (l': Load)
    requires Loaded(c, n, l, s) && j <= n && s.pcs == Crowd(n, j) && s.cb.state.Open?
    ensures Loaded(c, n, l', s.(pcs := Crowd(n, 0))) && l'.admissions == l.admissions
    decreases j
  {
    if j == 0 {
      l' := l;
    } else {
      CrowdUpdate(n, j - 1);
      l' := Continue(c, n, l, s, Finish(j - 1, false));
      l' := AllLeave(c, n, l', s.(pcs := Crowd(n, j - 1)), j - 1);
    }
  }

  /** A breaker that the next failure opens. */
  predicate AboutToTrip(c: Config, b: Core) {
    (b.state.Closed? && b.failures == c.maxFailures - 1) || (b.state.HalfOpen? && b.halfOpenCalls == 0)
  }

  /** All callers enter, the first outcome opens the breaker, and the others come too late. */
  lemma AllFail(c: Config, n: nat, l: Load, s: System, j: nat) returns (l': Load)
    requires Loaded(c, n, l, s) && 0 < n && j <= n && s.pcs == Crowd(n, j) && AboutToTrip(c, s.cb)
    ensures Loaded(c, n, l', System(s.now, OnFailure(c, s.cb, s.now), Crowd(n, 0)))
    ensures l'.admissions == l.admissions + n - j
  {
    l' := AllEnter(c, n, l, s, j);
    CrowdUpdate(n, n - 1);
    l' := Continue(c, n, l', s.(pcs := Crowd(n, n)), Finish(n - 1, false));
    l' := AllLeave(c, n, l', System(s.now, OnFailure(c, s.cb, s.now), Crowd(n, n - 1)), n - 1);
  }

  /** After a cool-down all callers enter the half-open breaker. */
  lemma AllProbe(c: Config, n: nat, l: Load, s: System) returns (l': Load, b: Core)
    requires c.Valid() && Loaded(c, n, l, s) && 0 < n && s.pcs == Crowd(n, 0)
    requires s.cb.state.Open? && s.cb.lastFailTime == s.now
    ensures var now := s.now + c.resetTimeout + 1;
      Loaded(c, n, l', System(now, b, Crowd(n, 0))) && b.state.Open? && b.lastFailTime == now
    ensures l'.admissions == l.admissions + n
  {
    var s1 := s.(now := s.now + c.resetTimeout + 1);
    var s2 := s1.(pcs := s1.pcs[0 := Upgrading]);
    var s3 := s2.(cb := UpgradeIfCooled(c, s.cb, s1.now), pcs := s2.pcs[0 := Rereading]);
    var s4 := s3.(pcs := Crowd(n, 1));
    CrowdUpdate(n, 0);
    assert s3.pcs[0 := InFlight] == s4.pcs;
    l' := Continue(c, n, l, s, Tick(c.resetTimeout + 1));
    l' := Continue(c, n, l', s1, Check(0));
    l' := Continue(c, n, l', s2, Upgrade(0));
    l' := Continue(c, n, l', s3, Reread(0));
    l' := AllFail(c, n, l', s4, 1);
    b := OnFailure(c, s4.cb, s4.now);
  }

  /** When the k-th round of probes is over. */
  function RoundTime(c: Config, k: nat): int {
    k * (c.resetTimeout + 1)
  }

  lemma OneMoreRound(c: Config, n: nat, k: nat)
    ensures RoundTime(c, k + 1) == RoundTime(c, k) + c.resetTimeout + 1
    ensures MaxLoad(c, n, k + 1) == MaxLoad(c, n, k) + n
  {
    assert n * (1 + (k + 1)) == n * (1 + k) + n;
  }

  lemma {:induction false} ProbeRounds(c: Config, n: nat, k: nat) returns (l: Load, b: Core)
    requires c.Valid() && n > 0
    ensures Loaded(c, n, l, System(RoundTime(c, k), b, Crowd(n, 0)))
    ensures b.state.Open? && b.lastFailTime == RoundTime(c, k) && l.admissions == MaxLoad(c, n, k)
  {
    if k == 0 {
      l := FailInTurn(c, n, c.maxFailures - 1);
      var s := System(0, Core(Closed, c.maxFailures - 1, 0, 0, 0), Crowd(n, 0));
      l := AllFail(c, n, l, s, 0);
      b := OnFailure(c, s.cb, 0);
    } else {
      l, b := ProbeRounds(c, n, k - 1);
      OneMoreRound(c, n, k - 1);
      l, b := AllProbe(c, n, l, System(RoundTime(c, k - 1), b, Crowd(n, 0)));
    }
  }

  /** A run of `n` callers of a function that only fails, in at most `elapsed` nanoseconds. */
  ghost predicate FailingRun(c: Config, n: nat, elapsed: nat, ss: seq<System>, acts: seq<Action>) {
    && Run(c, ss, acts) && |ss[0].pcs| == n && ss[|acts|].now - ss[0].now <= elapsed
    && forall m :: 0 <= m < |acts| ==> OnlyFails(acts[m])
  }

  /** The most calls that n callers can get through to a failing backend in a given time are
      exactly as many as the bound says: no interleaving lets more through, and one as many. */
  lemma LoadMaximum(c: Config, n: nat, elapsed: nat) returns (ss: seq<System>, acts: seq<Action>)
    requires c.Valid() && n > 0
    ensures FailingRun(c, n, elapsed, ss, acts)
    ensures Admissions(c, ss, acts, |acts|) == MaxLoad(c, n, elapsed / (c.resetTimeout + 1))
    ensures forall ss', acts' :: FailingRun(c, n, elapsed, ss', acts')
              ==> Admissions(c, ss', acts', |acts'|) <= Admissions(c, ss, acts, |acts|)
  {
    var k := elapsed / (c.resetTimeout + 1);
    QuotientBounds(elapsed, c.resetTimeout + 1, 0);
    QuotientBounds(elapsed, c.resetTimeout + 1, k);
    var l, b := ProbeRounds(c, n, k);
    ss, acts := l.ss, l.acts;
    forall ss', acts' | FailingRun(c, n, elapsed, ss', acts')
      ensures Admissions(c, ss', acts', |acts'|) <= MaxLoad(c, n, k)
    {
      FailingRunWithin(c, n, elapsed, ss', acts');
    }
  }

  lemma MaxLoadMono(c: Config, n: nat, j: int, k: int)
    requires j <= k
    ensures MaxLoad(c, n, j) <= MaxLoad(c, n, k)
  {
    MulMono(n, 1 + j, 1 + k);
  }

  lemma FailingRunWithin(c: Config, n: nat, elapsed: nat, ss: seq<System>, acts: seq<Action>)
    requires FailingRun(c, n, elapsed, ss, acts)
    ensures Admissions(c, ss, acts, |acts|) <= MaxLoad(c, n, elapsed / (c.resetTimeout + 1))
  {
    LoadBound(c, ss, acts, |acts|);
    var taken, unit := ss[|acts|].now - ss[0].now, c.resetTimeout + 1;
    QuotientMono(taken, elapsed, unit);
    MaxLoadMono(c, n, taken / unit, elapsed / unit);
  }
}
