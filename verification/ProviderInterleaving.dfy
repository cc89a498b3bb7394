/** The provider breaker of internal/ai/manager.go shared by several requests. The gate copies
    the state under one lock, reads the clock with no lock held, and moves an open breaker to
    half-open under another lock, without looking again. This module says what that costs. */
module ProviderInterleaving {
  import opened Common
  import opened ProviderBreaker

  /** Where a request stands: outside, holding a copy of an open breaker's latest failure,
      about to write the half-open state, or past the gate. */
  datatype Pc = Idle | Deciding(copied: int) | Writing | InFlight

  datatype System = System(now: int, cb: Circuit, pcs: seq<Pc>)

  datatype Action =
    | Tick(d: nat)
    | Read(i: nat)
    | Decide(i: nat)
    | Write(i: nat)
    | Finish(i: nat, success: bool)
    | Abandon(i: nat)  // past the gate, but no outcome is recorded: the provider is not called, or only lists models

  predicate Enabled(s: System, a: Action) {
    match a
    case Tick(_) => true
    case Read(i) => i < |s.pcs| && s.pcs[i].Idle?
    case Decide(i) => i < |s.pcs| && s.pcs[i].Deciding?
    case Write(i) => i < |s.pcs| && s.pcs[i].Writing?
    case Finish(i, _) => i < |s.pcs| && s.pcs[i].InFlight?
    case Abandon(i) => i < |s.pcs| && s.pcs[i].InFlight?
  }

  predicate Cooled(s: System) {
    s.now - s.cb.lastFailure > COOLDOWN
  }

  function Apply(s: System, a: Action): System
    requires Enabled(s, a)
  {
    match a
    case Tick(d) => s.(now := s.now + d)
    case Read(i) =>
      s.(pcs := s.pcs[i := if s.cb.state.CircuitOpen? then Deciding(s.cb.lastFailure) else InFlight])
    case Decide(i) =>
      s.(pcs := s.pcs[i := if s.now - s.pcs[i].copied > COOLDOWN then Writing else Idle])
    case Write(i) => s.(cb := s.cb.(state := CircuitHalfOpen), pcs := s.pcs[i := InFlight])
    case Finish(i, success) => s.(cb := Update(s.cb, success, s.now), pcs := s.pcs[i := Idle])
    case Abandon(i) => s.(pcs := s.pcs[i := Idle])
  }

  predicate Admits(s: System, a: Action) {
    Enabled(s, a) && (a.Read? || a.Write?) && Apply(s, a).pcs[a.i].InFlight?
  }

  predicate Trips(s: System, a: Action) {
    Enabled(s, a) && !s.cb.state.CircuitOpen? && Apply(s, a).cb.state.CircuitOpen?
  }

  /** The write that the second look of the generic breaker would have suppressed. */
  predicate Stale(s: System, a: Action) {
    a.Write? && !(s.cb.state.CircuitOpen? && Cooled(s))
  }

  ghost predicate Run(ss: seq<System>, acts: seq<Action>) {
    && |ss| == |acts| + 1
    && ss[0].cb == FRESH
    && (forall i :: 0 <= i < |ss[0].pcs| ==> ss[0].pcs[i] == Idle)
    && forall k :: 0 <= k < |acts| ==> Enabled(ss[k], acts[k]) && ss[k + 1] == Apply(ss[k], acts[k])
  }

  // ---- What still holds ----

  /** An open breaker has enough failures and a closed one has not. */
  predicate WeakInv(cb: Circuit) {
    && 0 <= cb.failures
    && (cb.state.CircuitOpen? ==> cb.failures >= THRESHOLD)
    && (cb.state.CircuitClosed? ==> cb.failures < THRESHOLD)
  }

  lemma {:induction false} WeakInvariant(ss: seq<System>, acts: seq<Action>, k: nat)
    requires Run(ss, acts) && k <= |acts|
    ensures WeakInv(ss[k].cb)
  {
    if k == 0 {
    } else {
      WeakInvariant(ss, acts, k - 1);
      assert Enabled(ss[k - 1], acts[k - 1]) && ss[k] == Apply(ss[k - 1], acts[k - 1]);
    }
  }

  /** Length of the run of failures that ends the outcomes recorded by `acts`. */
  function Trailing(acts: seq<Action>): nat {
    if acts == [] then 0
    else
      var a := acts[|acts| - 1];
      if a.Finish? then (if a.success then 0 else 1 + Trailing(acts[..|acts| - 1]))
      else Trailing(acts[..|acts| - 1])
  }

  /** In every state of every run the counter is that length, whatever the breaker's state. */
  lemma {:induction false} FailuresAreTrailing(ss: seq<System>, acts: seq<Action>, k: nat)
    requires Run(ss, acts) && k <= |acts|
    ensures ss[k].cb.failures == Trailing(acts[..k])
  {
    if k == 0 {
    } else {
      FailuresAreTrailing(ss, acts, k - 1);
      assert Enabled(ss[k - 1], acts[k - 1]) && ss[k] == Apply(ss[k - 1], acts[k - 1]);
      assert acts[..k][..k - 1] == acts[..k - 1];
    }
  }

  /** When the latest failure was recorded. */
  ghost function LatestFailure(ss: seq<System>, acts: seq<Action>, k: nat): int
    requires Run(ss, acts) && k <= |acts|
  {
    if k == 0 then 0
    else if acts[k - 1].Finish? && !acts[k - 1].success then ss[k - 1].now
    else LatestFailure(ss, acts, k - 1)
  }

  /** The cool-down is always counted from there, also from failures recorded behind an open
      breaker. */
  lemma {:induction false} LastFailureIsLatest(ss: seq<System>, acts: seq<Action>, k: nat)
    requires Run(ss, acts) && k <= |acts|
    ensures ss[k].cb.lastFailure == LatestFailure(ss, acts, k)
  {
    if k == 0 {
    } else {
      LastFailureIsLatest(ss, acts, k - 1);
      assert Enabled(ss[k - 1], acts[k - 1]) && ss[k] == Apply(ss[k - 1], acts[k - 1]);
    }
  }

  /** The action is a step of request `i`. */
  predicate StepOf(a: Action, i: nat) {
    !a.Tick? && a.i == i
  }

  /** A request that is deciding does so on what it read: there was an open breaker then, and the
      request has done nothing since. */
  lemma {:induction false} DecidesOnWhatItRead(ss: seq<System>, acts: seq<Action>, k: nat, i: nat) returns (m: nat)
    requires Run(ss, acts) && k <= |acts| && i < |ss[k].pcs| && ss[k].pcs[i].Deciding?
    ensures m < k && acts[m] == Read(i) && ss[m].cb.state.CircuitOpen?
    ensures ss[k].pcs[i].copied == ss[m].cb.lastFailure
    ensures forall j :: m < j < k ==> !StepOf(acts[j], i)
  {
    assert k > 0;
    assert Enabled(ss[k - 1], acts[k - 1]) && ss[k] == Apply(ss[k - 1], acts[k - 1]);
    if acts[k - 1] == Read(i) {
      m := k - 1;
    } else {
      m := DecidesOnWhatItRead(ss, acts, k - 1, i);
    }
  }

  /** So it goes on to the half-open write exactly when the cool-down after the failure that was
      the latest one at the time of reading is over, whatever was recorded since. */
  lemma WritesIffReadFailureIsOld(ss: seq<System>, acts: seq<Action>, k: nat) returns (m: nat)
    requires Run(ss, acts) && k < |acts| && acts[k].Decide?
    ensures m < k && acts[m] == Read(acts[k].i)
    ensures ss[k + 1].pcs[acts[k].i].Writing? <==> ss[k].now > LatestFailure(ss, acts, m) + COOLDOWN
    ensures !ss[k + 1].pcs[acts[k].i].Writing? ==> ss[k + 1].pcs[acts[k].i].Idle?
  {
    assert Enabled(ss[k], acts[k]) && ss[k + 1] == Apply(ss[k], acts[k]);
    m := DecidesOnWhatItRead(ss, acts, k, acts[k].i);
    LastFailureIsLatest(ss, acts, m);
  }

  /** So what the state says about the recent past: an open breaker saw five failures in a row
      last, and a closed one did not. */
  lemma StateTellsTrailing(ss: seq<System>, acts: seq<Action>, k: nat)
    requires Run(ss, acts) && k <= |acts|
    ensures ss[k].cb.state.CircuitOpen? ==> Trailing(acts[..k]) >= THRESHOLD
    ensures ss[k].cb.state.CircuitClosed? ==> Trailing(acts[..k]) < THRESHOLD
  {
    WeakInvariant(ss, acts, k);
    FailuresAreTrailing(ss, acts, k);
  }

  /** The invariant of sequential runs is lost exactly by a write that comes after another
      request's success has reset the failures. */
  lemma InvLostExactlyWhen(ss: seq<System>, acts: seq<Action>, k: nat)
    requires Run(ss, acts) && k < |acts| && Inv(ss[k].cb)
    ensures !Inv(ss[k + 1].cb) <==> acts[k].Write? && ss[k].cb.failures < THRESHOLD
  {
    assert Enabled(ss[k], acts[k]) && ss[k + 1] == Apply(ss[k], acts[k]);
  }

  lemma {:induction false} CoolingOrCooled(ss: seq<System>, acts: seq<Action>, i: nat, k: nat)
    requires Run(ss, acts) && i < k <= |acts| && Trips(ss[i], acts[i])
    requires forall m :: i < m < k ==> !Stale(ss[m], acts[m]) && !(acts[m].Finish? && acts[m].success)
    ensures ss[i].now <= ss[k].now
    ensures ss[k].now > ss[i].now + COOLDOWN || (ss[k].cb.state.CircuitOpen? && ss[k].cb.lastFailure >= ss[i].now)
  {
    if k == i + 1 {
    } else {
      CoolingOrCooled(ss, acts, i, k - 1);
    }
    assert Enabled(ss[k - 1], acts[k - 1]) && ss[k] == Apply(ss[k - 1], acts[k - 1]);
  }

  /** The cool-down after a trip is kept as long as no write is stale and no request admitted
      earlier succeeds in the meantime. */
  lemma CooldownUnlessStale(ss: seq<System>, acts: seq<Action>, i: nat, j: nat)
    requires Run(ss, acts) && i < j < |acts| && Trips(ss[i], acts[i]) && Admits(ss[j], acts[j])
    requires forall m :: i < m <= j ==> !Stale(ss[m], acts[m]) && !(acts[m].Finish? && acts[m].success)
    ensures ss[j].now > ss[i].now + COOLDOWN
  {
    CoolingOrCooled(ss, acts, i, j);
    assert Enabled(ss[j], acts[j]);
  }

  // ---- Requests in flight ----

  function CountInFlight(pcs: seq<Pc>): (n: nat)
    ensures n <= |pcs|
  {
    if pcs == [] then 0 else CountInFlight(pcs[1..]) + (if pcs[0].InFlight? then 1 else 0)
  }

  lemma {:induction false} CountInFlightUpdate(pcs: seq<Pc>, i: nat, p: Pc)
    requires i < |pcs|
    ensures CountInFlight(pcs[i := p])
            == CountInFlight(pcs) - (if pcs[i].InFlight? then 1 else 0) + (if p.InFlight? then 1 else 0)
  {
    if i == 0 {
      assert pcs[0 := p][1..] == pcs[1..];
    } else {
      CountInFlightUpdate(pcs[1..], i - 1, p);
      assert pcs[i := p][1..] == pcs[1..][i - 1 := p];
    }
  }

  lemma {:induction false} NoneInFlight(pcs: seq<Pc>)
    requires forall i :: 0 <= i < |pcs| ==> pcs[i] == Idle
    ensures CountInFlight(pcs) == 0
  {
    if pcs == [] {
    } else {
      NoneInFlight(pcs[1..]);
    }
  }

  /** Requests let through in the first `k` steps. */
  ghost function Admissions(ss: seq<System>, acts: seq<Action>, k: nat): nat
    requires Run(ss, acts) && k <= |acts|
  {
    if k == 0 then 0 else Admissions(ss, acts, k - 1) + (if Admits(ss[k - 1], acts[k - 1]) then 1 else 0)
  }

  /** Requests that ended, with an outcome or without. */
  function Departures(acts: seq<Action>): nat {
    if acts == [] then 0
    else
      var a := acts[|acts| - 1];
      Departures(acts[..|acts| - 1]) + (if a.Finish? || a.Abandon? then 1 else 0)
  }

  lemma InFlightStep(s: System, a: Action)
    requires Enabled(s, a)
    ensures CountInFlight(Apply(s, a).pcs)
            == CountInFlight(s.pcs) + (if Admits(s, a) then 1 else 0) - (if a.Finish? || a.Abandon? then 1 else 0)
  {
    if !a.Tick? {
      var s' := Apply(s, a);
      CountInFlightUpdate(s.pcs, a.i, s'.pcs[a.i]);
      assert s'.pcs == s.pcs[a.i := s'.pcs[a.i]];
    }
  }

  /** In every state of every run the requests in flight are those let through and not yet
      ended. */
  lemma {:induction false} InFlightIsBalance(ss: seq<System>, acts: seq<Action>, k: nat)
    requires Run(ss, acts) && k <= |acts|
    ensures CountInFlight(ss[k].pcs) == Admissions(ss, acts, k) - Departures(acts[..k])
  {
    if k == 0 {
      NoneInFlight(ss[0].pcs);
    } else {
      InFlightIsBalance(ss, acts, k - 1);
      assert Enabled(ss[k - 1], acts[k - 1]) && ss[k] == Apply(ss[k - 1], acts[k - 1]);
      InFlightStep(ss[k - 1], acts[k - 1]);
      assert acts[..k][..k - 1] == acts[..k - 1];
    }
  }

  // ---- A request alone ----

  /** With a single request the copy is never out of date. */
  predicate SoloPc(s: System, pc: Pc) {
    match pc
    case Idle => true
    case Deciding(copied) => s.cb.state.CircuitOpen? && copied == s.cb.lastFailure
    case Writing => s.cb.state.CircuitOpen? && Cooled(s)
    case InFlight => !s.cb.state.CircuitOpen?
  }

  predicate SoloInv(s: System) {
    Inv(s.cb) && (s.pcs == [] || (|s.pcs| == 1 && SoloPc(s, s.pcs[0])))
  }

  lemma SoloStep(s: System, a: Action)
    requires SoloInv(s) && Enabled(s, a)
    ensures SoloInv(Apply(s, a)) && !Stale(s, a)
    ensures a.Finish? ==> !s.cb.state.CircuitOpen?
  {
  }

  lemma {:induction false} SoloInvariant(ss: seq<System>, acts: seq<Action>, k: nat)
    requires Run(ss, acts) && k <= |acts| && |ss[0].pcs| <= 1
    ensures SoloInv(ss[k])
  {
    if k == 0 {
    } else {
      SoloInvariant(ss, acts, k - 1);
      assert Enabled(ss[k - 1], acts[k - 1]) && ss[k] == Apply(ss[k - 1], acts[k - 1]);
      SoloStep(ss[k - 1], acts[k - 1]);
    }
  }

  lemma {:induction false} SoloCoolingOrCooled(ss: seq<System>, acts: seq<Action>, i: nat, k: nat)
    requires Run(ss, acts) && |ss[0].pcs| <= 1 && i < k <= |acts| && Trips(ss[i], acts[i])
    ensures ss[k].now > ss[i].now + COOLDOWN || (ss[k].cb.state.CircuitOpen? && ss[k].cb.lastFailure >= ss[i].now)
  {
    if k == i + 1 {
    } else {
      SoloCoolingOrCooled(ss, acts, i, k - 1);
      SoloInvariant(ss, acts, k - 1);
      SoloStep(ss[k - 1], acts[k - 1]);
    }
    assert Enabled(ss[k - 1], acts[k - 1]) && ss[k] == Apply(ss[k - 1], acts[k - 1]);
  }

  // ---- Two requests ----

  lemma Start(n: nat) returns (ss: seq<System>, acts: seq<Action>)
    ensures Run(ss, acts) && ss[|acts|] == System(0, FRESH, seq(n, _ => Idle))
  {
    ss, acts := [System(0, FRESH, seq(n, _ => Idle))], [];
  }

  lemma Extend(ss: seq<System>, acts: seq<Action>, a: Action) returns (ss': seq<System>, acts': seq<Action>)
    requires Run(ss, acts) && Enabled(ss[|acts|], a)
    ensures acts' == acts + [a] && ss' == ss + [Apply(ss[|acts|], a)]
    ensures Run(ss', acts')
  {
    ss', acts' := ss + [Apply(ss[|acts|], a)], acts + [a];
  }

  lemma {:induction false} FailRepeatedly(n: nat, f: nat) returns (ss: seq<System>, acts: seq<Action>)
    requires 0 < n && f <= THRESHOLD
    ensures Run(ss, acts)
    ensures ss[|acts|].now == 0 && ss[|acts|].pcs == seq(n, _ => Idle)
    ensures ss[|acts|].cb == Circuit(f, 0, if f < THRESHOLD then CircuitClosed else CircuitOpen)
  {
    if f == 0 {
      ss, acts := Start(n);
    } else {
      ss, acts := FailRepeatedly(n, f - 1);
      ss, acts := Extend(ss, acts, Read(0));
      ss, acts := Extend(ss, acts, Finish(0, false));
      assert ss[|acts|].pcs == seq(n, _ => Idle);
    }
  }

  /** Of `n` requests, two find the cool-down over. */
  lemma BothWriting(n: nat) returns (ss: seq<System>, acts: seq<Action>)
    requires n >= 2
    ensures Run(ss, acts) && ss[|acts|].now == COOLDOWN + 1
    ensures ss[|acts|].cb == Circuit(THRESHOLD, 0, CircuitOpen)
    ensures |ss[|acts|].pcs| == n && ss[|acts|].pcs[0] == ss[|acts|].pcs[1] == Writing
    ensures |ss[0].pcs| == n
  {
    ss, acts := FailRepeatedly(n, THRESHOLD);
    ss, acts := Extend(ss, acts, Tick(COOLDOWN + 1));
    ss, acts := Extend(ss, acts, Read(0));
    ss, acts := Extend(ss, acts, Read(1));
    ss, acts := Extend(ss, acts, Decide(0));
    ss, acts := Extend(ss, acts, Decide(1));
    SameSize(ss, acts, |acts|);
  }

  lemma {:induction false} SameSize(ss: seq<System>, acts: seq<Action>, k: nat)
    requires Run(ss, acts) && k <= |acts|
    ensures |ss[k].pcs| == |ss[0].pcs|
  {
    if k == 0 {
    } else {
      SameSize(ss, acts, k - 1);
      assert Enabled(ss[k - 1], acts[k - 1]) && ss[k] == Apply(ss[k - 1], acts[k - 1]);
    }
  }

  /** The first one fails and trips the breaker again, and in the same instant the second one
      is let through by a stale write. */
  lemma AdmittedDuringCooldown(n: nat) returns (ss: seq<System>, acts: seq<Action>, i: nat, j: nat)
    requires n >= 2
    ensures Run(ss, acts) && |ss[0].pcs| == n && i < j < |acts|
    ensures Trips(ss[i], acts[i]) && Admits(ss[j], acts[j]) && Stale(ss[j], acts[j])
    ensures ss[j].now == ss[i].now
  {
    ss, acts := BothWriting(n);
    ss, acts := Extend(ss, acts, Write(0));
    i := |acts|;
    ss, acts := Extend(ss, acts, Finish(0, false));
    j := |acts|;
    ss, acts := Extend(ss, acts, Write(1));
  }

  /** The first one succeeds, and the second one reopens the question: a breaker without a
      single counted failure is half-open. */
  lemma HalfOpenWithoutFailures(n: nat) returns (ss: seq<System>, acts: seq<Action>)
    requires n >= 2
    ensures Run(ss, acts) && |ss[0].pcs| == n
    ensures ss[|acts|].cb.state.CircuitHalfOpen? && ss[|acts|].cb.failures == 0
  {
    ss, acts := BothWriting(n);
    ss, acts := Extend(ss, acts, Write(0));
    ss, acts := Extend(ss, acts, Finish(0, true));
    ss, acts := Extend(ss, acts, Write(1));
  }

  // ---- Exactly when the guarantees hold ----

  /** No run of `n` requests lets one through within the cool-down after a trip. */
  ghost predicate CooldownKept(n: nat) {
    forall ss: seq<System>, acts: seq<Action>, i: nat, j: nat ::
      Run(ss, acts) && |ss[0].pcs| == n && i < j < |acts| && Trips(ss[i], acts[i]) && Admits(ss[j], acts[j])
      ==> ss[j].now > ss[i].now + COOLDOWN
  }

  /** The theorem that the generic breaker's second look buys for any number of callers holds
      of this breaker only while requests come one at a time. */
  lemma CooldownKeptIff(n: nat)
    ensures CooldownKept(n) <==> n <= 1
  {
    if n <= 1 {
      forall ss: seq<System>, acts: seq<Action>, i: nat, j: nat
        | Run(ss, acts) && |ss[0].pcs| == n && i < j < |acts| && Trips(ss[i], acts[i]) && Admits(ss[j], acts[j])
        ensures ss[j].now > ss[i].now + COOLDOWN
      {
        SoloCoolingOrCooled(ss, acts, i, j);
        SoloInvariant(ss, acts, j);
        SoloStep(ss[j], acts[j]);
      }
    } else {
      var ss, acts, i, j := AdmittedDuringCooldown(n);
    }
  }

  /** In all runs of `n` requests the breaker is closed exactly below five counted failures. */
  ghost predicate InvKept(n: nat) {
    forall ss: seq<System>, acts: seq<Action> :: Run(ss, acts) && |ss[0].pcs| == n ==> Inv(ss[|acts|].cb)
  }

  lemma InvKeptIff(n: nat)
    ensures InvKept(n) <==> n <= 1
  {
    if n <= 1 {
      forall ss: seq<System>, acts: seq<Action> | Run(ss, acts) && |ss[0].pcs| == n
        ensures Inv(ss[|acts|].cb)
      {
        SoloInvariant(ss, acts, |acts|);
      }
    } else {
      var ss, acts := HalfOpenWithoutFailures(n);
    }
  }

  /** In all runs of `n` requests at most one is past the gate of a half-open breaker. */
  ghost predicate OneProbeAtATime(n: nat) {
    forall ss: seq<System>, acts: seq<Action>, i: nat, j: nat ::
      Run(ss, acts) && |ss[0].pcs| == n && ss[|acts|].cb.state.CircuitHalfOpen? && i < j < |ss[|acts|].pcs|
      ==> !(ss[|acts|].pcs[i].InFlight? && ss[|acts|].pcs[j].InFlight?)
  }

  /** The one request that the source's comment allows a half-open breaker is an upper bound
      only where there is no second one. */
  lemma OneProbeAtATimeIff(n: nat)
    ensures OneProbeAtATime(n) <==> n <= 1
  {
    if n <= 1 {
      forall ss: seq<System>, acts: seq<Action> | Run(ss, acts)
        ensures |ss[|acts|].pcs| == |ss[0].pcs|
      {
        SameSize(ss, acts, |acts|);
      }
    } else {
      var ss, acts := BothWriting(n);
      ss, acts := Extend(ss, acts, Write(0));
      ss, acts := Extend(ss, acts, Write(1));
      assert ss[|acts|].pcs[0].InFlight? && ss[|acts|].pcs[1].InFlight?;
    }
  }
}
