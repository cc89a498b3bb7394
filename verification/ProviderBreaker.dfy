/** The per-provider breaker of internal/ai/manager.go:43-57, 356-381, 565-586, beside the
    breaker of pkg/errors/recovery.go. */
module ProviderBreaker {
  import opened Common
  import B = Breaker

  datatype CircuitState = CircuitClosed | CircuitOpen | CircuitHalfOpen

  datatype Circuit = Circuit(failures: int, lastFailure: int, state: CircuitState)

  const FRESH := Circuit(0, 0, CircuitClosed)
  const THRESHOLD := 5
  const COOLDOWN := 60 * SECOND

  /** The breaker's part of isProviderAvailable, run without interruption. */
  function Gate(cb: Circuit, now: int): (Circuit, bool) {
    match cb.state
    case CircuitClosed => (cb, true)
    case CircuitOpen => if now - cb.lastFailure > COOLDOWN then (cb.(state := CircuitHalfOpen), true) else (cb, false)
    case CircuitHalfOpen => (cb, true)
  }

  function Update(cb: Circuit, success: bool, now: int): Circuit {
    if success then cb.(failures := 0, state := CircuitClosed)
    else
      var failures := cb.failures + 1;
      Circuit(failures, now, if failures >= THRESHOLD then CircuitOpen else cb.state)
  }

  /** Holds between the calls of a sequential run. */
  predicate Inv(cb: Circuit) {
    0 <= cb.failures && (cb.state.CircuitClosed? <==> cb.failures < THRESHOLD)
  }

  lemma SequentialStepsKeepInv(cb: Circuit, success: bool, now: int)
    requires Inv(cb)
    ensures Inv(Gate(cb, now).0) && Inv(Update(cb, success, now))
  {
  }

  class CircuitBreaker {
    var failures: int
    var lastFailure: int
    var state: CircuitState

    function View(): Circuit
      reads this
    {
      Circuit(failures, lastFailure, state)
    }

    constructor ()
      ensures View() == FRESH
    {
      failures, lastFailure, state := 0, 0, CircuitClosed;
    }

    method CheckGate(now: int) returns (open: bool)
      modifies `state
      ensures (View(), open) == Gate(old(View()), now)
    {
      match state {
        case CircuitOpen =>
          if now - lastFailure > COOLDOWN {
            state := CircuitHalfOpen;
          } else {
            return false;
          }
        case CircuitClosed =>
        case CircuitHalfOpen =>
      }
      return true;
    }

    method Record(success: bool, now: int)
      modifies this
      ensures View() == Update(old(View()), success, now)
    {
      if success {
        failures := 0;
        state := CircuitClosed;
      } else {
        failures := failures + 1;
        lastFailure := now;
        if failures >= THRESHOLD {
          state := CircuitOpen;
        }
      }
    }
  }

  // ---- The two breakers agree ----

  /** The settings of the generic breaker that amount to this one. */
  predicate Equivalent(c: B.Config) {
    c.maxFailures == THRESHOLD && c.resetTimeout == COOLDOWN && 1 <= c.halfOpenMaxCalls <= 3
  }

  /** Same state, and equal in what can still make a difference there. */
  predicate Match(g: B.Core, m: Circuit) {
    match m.state
    case CircuitClosed => g.state.Closed? && g.failures == m.failures < THRESHOLD
    case CircuitHalfOpen => g.state.HalfOpen? && m.failures >= THRESHOLD && g.halfOpenCalls == g.halfOpenSuccesses == 0
    case CircuitOpen => g.state.Open? && g.lastFailTime == m.lastFailure && m.failures >= THRESHOLD
  }

  lemma GatesAgree(c: B.Config, g: B.Core, m: Circuit, now: int, relocked: int)
    requires Equivalent(c) && Match(g, m) && now <= relocked
    ensures var (g', allowed) := B.Allow(c, g, now, relocked); var (m', open) := Gate(m, now);
      Match(g', m') && (allowed <==> open) && (open ==> !m'.state.CircuitOpen?)
  {
  }

  /** After a recorded outcome the two still match exactly when it was not recorded behind an
      open breaker (or was a failure at the very instant of the last one). The generic breaker
      ignores such an outcome; this one closes on a success and restarts its cool-down on a
      failure. */
  lemma OutcomesAgreeIff(c: B.Config, g: B.Core, m: Circuit, success: bool, now: int)
    requires Equivalent(c) && Match(g, m)
    ensures Match(B.OnOutcome(c, g, success, now), Update(m, success, now))
            <==> (!m.state.CircuitOpen? || (!success && now == m.lastFailure))
  {
  }

  /** A turn at the gate and, if it is open and the provider is called, the outcome. */
  datatype Turn = Turn(gate: int, relocked: int, called: bool, success: bool, done: int)

  function GenericTurn(c: B.Config, g: B.Core, turn: Turn): (B.Core, bool) {
    var (g', allowed) := B.Allow(c, g, turn.gate, turn.relocked);
    (if allowed && turn.called then B.OnOutcome(c, g', turn.success, turn.done) else g', allowed)
  }

  function ManagerTurn(m: Circuit, turn: Turn): (Circuit, bool) {
    var (m', open) := Gate(m, turn.gate);
    (if open && turn.called then Update(m', turn.success, turn.done) else m', open)
  }

  function GenericAfter(c: B.Config, turns: seq<Turn>): B.Core {
    if turns == [] then B.FRESH
    else GenericTurn(c, GenericAfter(c, turns[..|turns| - 1]), turns[|turns| - 1]).0
  }

  function ManagerAfter(turns: seq<Turn>): Circuit {
    if turns == [] then FRESH
    else ManagerTurn(ManagerAfter(turns[..|turns| - 1]), turns[|turns| - 1]).0
  }

  /** One turn after the other. */
  ghost predicate InOrder(turns: seq<Turn>) {
    && (forall k :: 0 <= k < |turns| ==> turns[k].gate <= turns[k].relocked <= turns[k].done)
    && (forall j, k :: 0 <= j < k < |turns| ==> turns[j].done <= turns[k].gate)
  }

  lemma TurnsAgree(c: B.Config, g: B.Core, m: Circuit, turn: Turn)
    requires Equivalent(c) && Match(g, m) && turn.gate <= turn.relocked
    ensures Match(GenericTurn(c, g, turn).0, ManagerTurn(m, turn).0)
    ensures GenericTurn(c, g, turn).1 <==> ManagerTurn(m, turn).1
  {
    GatesAgree(c, g, m, turn.gate, turn.relocked);
    OutcomesAgreeIff(c, B.Allow(c, g, turn.gate, turn.relocked).0, Gate(m, turn.gate).0, turn.success, turn.done);
  }

  lemma {:induction false} StatesMatch(c: B.Config, turns: seq<Turn>)
    requires Equivalent(c) && forall k :: 0 <= k < |turns| ==> turns[k].gate <= turns[k].relocked
    ensures Match(GenericAfter(c, turns), ManagerAfter(turns))
  {
    if turns == [] {
    } else {
      var n := |turns| - 1;
      StatesMatch(c, turns[..n]);
      TurnsAgree(c, GenericAfter(c, turns[..n]), ManagerAfter(turns[..n]), turns[n]);
    }
  }

  /** The two let the k-th request of a run through, or both do not. */
  predicate SameAnswer(c: B.Config, turns: seq<Turn>, k: nat)
    requires k < |turns|
  {
    GenericTurn(c, GenericAfter(c, turns[..k]), turns[k]).1 <==> ManagerTurn(ManagerAfter(turns[..k]), turns[k]).1
  }

  /** On every sequential run of turns, whatever the times and outcomes, the two breakers let
      the same requests through and stay in matching states. */
  lemma BreakersAgree(c: B.Config, turns: seq<Turn>, k: nat)
    requires Equivalent(c) && k < |turns| && forall i :: 0 <= i < |turns| ==> turns[i].gate <= turns[i].relocked
    ensures Match(GenericAfter(c, turns[..k]), ManagerAfter(turns[..k]))
    ensures SameAnswer(c, turns, k)
  {
    StatesMatch(c, turns[..k]);
    TurnsAgree(c, GenericAfter(c, turns[..k]), ManagerAfter(turns[..k]), turns[k]);
  }

  // ---- Exactly which settings agree ----

  ghost predicate AlwaysAgree(c: B.Config) {
    forall turns: seq<Turn>, k: nat :: InOrder(turns) && k < |turns| ==> SameAnswer(c, turns, k)
  }

  function Failure(t: int): Turn {
    Turn(t, t, true, false, t)
  }

  function Success(t: int): Turn {
    Turn(t, t, true, true, t)
  }

  lemma OneMoreTurn(c: B.Config, turns: seq<Turn>, turn: Turn)
    ensures GenericAfter(c, turns + [turn]) == GenericTurn(c, GenericAfter(c, turns), turn).0
    ensures ManagerAfter(turns + [turn]) == ManagerTurn(ManagerAfter(turns), turn).0
    ensures SameAnswer(c, turns + [turn], |turns|)
            <==> (GenericTurn(c, GenericAfter(c, turns), turn).1 <==> ManagerTurn(ManagerAfter(turns), turn).1)
  {
    assert (turns + [turn])[..|turns|] == turns;
  }

  /** The first `n` requests fail at instant 0, up to the lower of the two limits. */
  lemma {:induction false} FailAtOnce(c: B.Config, n: nat) returns (turns: seq<Turn>)
    requires c.Valid() && n <= c.maxFailures && n <= THRESHOLD
    ensures InOrder(turns) && forall k :: 0 <= k < |turns| ==> turns[k].done == 0
    ensures var g := GenericAfter(c, turns);
      && g.failures == n && g.lastFailTime == 0
      && g.state == if n < c.maxFailures then B.Closed else B.Open
    ensures ManagerAfter(turns) == Circuit(n, 0, if n < THRESHOLD then CircuitClosed else CircuitOpen)
  {
    if n == 0 {
      turns := [];
    } else {
      var before := FailAtOnce(c, n - 1);
      OneMoreTurn(c, before, Failure(0));
      turns := before + [Failure(0)];
    }
  }

  /** The lower limit of failures is reached by one breaker alone. */
  lemma LimitsTellApart(c: B.Config) returns (turns: seq<Turn>)
    requires c.Valid() && c.maxFailures != THRESHOLD
    ensures InOrder(turns) && turns != [] && !SameAnswer(c, turns, |turns| - 1)
  {
    var before := FailAtOnce(c, Min(c.maxFailures, THRESHOLD));
    OneMoreTurn(c, before, Failure(0));
    turns := before + [Failure(0)];
  }

  /** The shorter cool-down ends for one breaker alone. */
  lemma CooldownsTellApart(c: B.Config) returns (turns: seq<Turn>)
    requires c.Valid() && c.maxFailures == THRESHOLD && c.resetTimeout != COOLDOWN
    ensures InOrder(turns) && turns != [] && !SameAnswer(c, turns, |turns| - 1)
  {
    var before := FailAtOnce(c, THRESHOLD);
    var t := Min(c.resetTimeout, COOLDOWN) + 1;
    OneMoreTurn(c, before, Failure(t));
    turns := before + [Failure(t)];
  }

  lemma OneMoreInOrder(turns: seq<Turn>, turn: Turn)
    requires InOrder(turns) && turn.gate <= turn.relocked <= turn.done
    requires forall k :: 0 <= k < |turns| ==> turns[k].done <= turn.gate
    ensures InOrder(turns + [turn])
  {
  }

  /** After a cool-down, one success closes this breaker, but not a generic one that waits for
      two: the next failure opens only that one. */
  lemma QuotasDiffer(c: B.Config, g: B.Core, m: Circuit, t: int)
    requires c.Valid() && c.resetTimeout == COOLDOWN < t && c.halfOpenMaxCalls >= 4
    requires g.state.Open? && g.lastFailTime == 0 && m == Circuit(THRESHOLD, 0, CircuitOpen)
    ensures var g1, m1 := GenericTurn(c, g, Success(t)).0, ManagerTurn(m, Success(t)).0;
      var g2, m2 := GenericTurn(c, g1, Failure(t)).0, ManagerTurn(m1, Failure(t)).0;
      !GenericTurn(c, g2, Failure(t)).1 && ManagerTurn(m2, Failure(t)).1
  {
    var g1, m1 := GenericTurn(c, g, Success(t)).0, ManagerTurn(m, Success(t)).0;
    assert g1.state.HalfOpen? && m1 == Circuit(0, 0, CircuitClosed);
    var g2, m2 := GenericTurn(c, g1, Failure(t)).0, ManagerTurn(m1, Failure(t)).0;
    assert g2.state.Open? && g2.lastFailTime == t && m2.state.CircuitClosed?;
  }

  lemma QuotasTellApart(c: B.Config) returns (turns: seq<Turn>)
    requires c.Valid() && c.maxFailures == THRESHOLD && c.resetTimeout == COOLDOWN && c.halfOpenMaxCalls >= 4
    ensures InOrder(turns) && turns != [] && !SameAnswer(c, turns, |turns| - 1)
  {
    var failed := FailAtOnce(c, THRESHOLD);
    var t := COOLDOWN + 1;
    QuotasDiffer(c, GenericAfter(c, failed), ManagerAfter(failed), t);
    OneMoreTurn(c, failed, Success(t));
    OneMoreInOrder(failed, Success(t));
    turns := FailTwice(c, failed + [Success(t)], t);
  }

  lemma FailTwice(c: B.Config, closed: seq<Turn>, t: int) returns (turns: seq<Turn>)
    requires InOrder(closed) && forall k :: 0 <= k < |closed| ==> closed[k].done <= t
    requires var g1, m1 := GenericAfter(c, closed), ManagerAfter(closed);
      var g2, m2 := GenericTurn(c, g1, Failure(t)).0, ManagerTurn(m1, Failure(t)).0;
      !GenericTurn(c, g2, Failure(t)).1 && ManagerTurn(m2, Failure(t)).1
    ensures InOrder(turns) && turns != [] && !SameAnswer(c, turns, |turns| - 1)
  {
    OneMoreTurn(c, closed, Failure(t));
    OneMoreInOrder(closed, Failure(t));
    var apart := closed + [Failure(t)];
    OneMoreTurn(c, apart, Failure(t));
    OneMoreInOrder(apart, Failure(t));
    turns := apart + [Failure(t)];
  }

  /** The generic breaker answers like this one on all sequential runs exactly with 5 failures,
      60 seconds and a half-open limit of at most 3. */
  lemma AlwaysAgreeIff(c: B.Config)
    requires c.Valid()
    ensures AlwaysAgree(c) <==> Equivalent(c)
  {
    if Equivalent(c) {
      forall turns: seq<Turn>, k: nat | InOrder(turns) && k < |turns|
        ensures SameAnswer(c, turns, k)
      {
        BreakersAgree(c, turns, k);
      }
    } else {
      var turns;
      if c.maxFailures != THRESHOLD {
        turns := LimitsTellApart(c);
      } else if c.resetTimeout != COOLDOWN {
        turns := CooldownsTellApart(c);
      } else {
        turns := QuotasTellApart(c);
      }
      assert |turns| - 1 < |turns|;
    }
  }

  // ---- Load on a provider that only fails ----

  /** Failures in a row that the breaker can count in `elapsed` nanoseconds: those that open it,
      and one more for each time the cool-down is exceeded. */
  function MaxInARow(elapsed: nat): nat {
    THRESHOLD + elapsed / (COOLDOWN + 1)
  }

  /** The breaker at the instant `clock`, of a run with gates between `from` and `to`: each
      failure beyond the first five had to wait for one more cool-down. */
  predicate Paced(from: int, to: int, clock: int, m: Circuit) {
    var waited := (m.failures - THRESHOLD) * (COOLDOWN + 1);
    && Inv(m)
    && (m.state.CircuitOpen? ==> from + waited <= to && from + waited <= m.lastFailure)
    && (m.state.CircuitHalfOpen? ==>
          from + waited + COOLDOWN + 1 <= to && from + waited + COOLDOWN + 1 <= clock)
  }

  lemma PacedTurn(from: int, to: int, clock: int, m: Circuit, turn: Turn)
    requires Paced(from, to, clock, m) && from <= clock <= turn.gate <= to && turn.gate <= turn.done
    ensures Paced(from, to, turn.done, ManagerTurn(m, turn).0)
  {
  }

  lemma PacedBound(from: int, to: int, clock: int, m: Circuit)
    requires Paced(from, to, clock, m) && from <= to
    ensures m.failures <= MaxInARow(to - from)
  {
    QuotientBounds(to - from, COOLDOWN + 1, 0);
    QuotientBounds(to - from, COOLDOWN + 1, m.failures - THRESHOLD);
  }

  ghost predicate GatesWithin(turns: seq<Turn>, from: int, to: int) {
    from <= to && forall k :: 0 <= k < |turns| ==> from <= turns[k].gate <= to
  }

  lemma {:induction false} TurnsArePaced(turns: seq<Turn>, from: int, to: int)
    requires InOrder(turns) && GatesWithin(turns, from, to)
    ensures Paced(from, to, if turns == [] then from else turns[|turns| - 1].done, ManagerAfter(turns))
  {
    if turns == [] {
    } else {
      var n := |turns| - 1;
      TurnsArePaced(turns[..n], from, to);
      PacedTurn(from, to, if n == 0 then from else turns[n - 1].done, ManagerAfter(turns[..n]), turns[n]);
    }
  }

  /** Calls of the provider in a run of turns. */
  function CallsMade(turns: seq<Turn>): nat {
    if turns == [] then 0
    else
      var before, last := turns[..|turns| - 1], turns[|turns| - 1];
      CallsMade(before) + (if last.called && ManagerTurn(ManagerAfter(before), last).1 then 1 else 0)
  }

  ghost predicate NeverSucceeds(turns: seq<Turn>) {
    forall k :: 0 <= k < |turns| ==> turns[k].called ==> !turns[k].success
  }

  lemma {:induction false} CallsAreFailures(turns: seq<Turn>)
    requires NeverSucceeds(turns)
    ensures ManagerAfter(turns).failures == CallsMade(turns)
  {
    if turns == [] {
    } else {
      CallsAreFailures(turns[..|turns| - 1]);
    }
  }

  /** The instant at which the n-th call can follow, and one failure at each of them. */
  function ProbeTime(n: nat): nat {
    if n <= THRESHOLD then 0 else (n - THRESHOLD) * (COOLDOWN + 1)
  }

  lemma {:induction false} Probes(n: nat) returns (turns: seq<Turn>)
    ensures |turns| == n && forall k :: 0 <= k < n ==> turns[k] == Failure(ProbeTime(k + 1))
    ensures ManagerAfter(turns) == Circuit(n, ProbeTime(n), if n < THRESHOLD then CircuitClosed else CircuitOpen)
  {
    if n == 0 {
      turns := [];
    } else {
      var before := Probes(n - 1);
      turns := before + [Failure(ProbeTime(n))];
      assert turns[..n - 1] == before;
    }
  }

  /** A run of requests to a provider that never answers, with gates between 0 and `to`. */
  ghost predicate DeadRun(turns: seq<Turn>, to: int) {
    InOrder(turns) && GatesWithin(turns, 0, to) && NeverSucceeds(turns)
  }

  /** The most calls that such a provider can get are five and one for each time the cool-down
      is exceeded: no run has more, and one has as many. */
  lemma DeadProviderMaximum(to: nat) returns (most: seq<Turn>)
    ensures DeadRun(most, to) && CallsMade(most) == MaxInARow(to)
    ensures forall turns: seq<Turn> :: DeadRun(turns, to) ==> CallsMade(turns) <= MaxInARow(to)
  {
    var n := MaxInARow(to);
    most := Probes(n);
    ProbesInOrder(most, to);
    CallsAreFailures(most);
    forall turns: seq<Turn> | DeadRun(turns, to)
      ensures CallsMade(turns) <= MaxInARow(to)
    {
      TurnsArePaced(turns, 0, to);
      PacedBound(0, to, if turns == [] then 0 else turns[|turns| - 1].done, ManagerAfter(turns));
      CallsAreFailures(turns);
    }
  }

  lemma ProbesInOrder(turns: seq<Turn>, to: nat)
    requires |turns| == MaxInARow(to) && forall k :: 0 <= k < |turns| ==> turns[k] == Failure(ProbeTime(k + 1))
    ensures DeadRun(turns, to)
  {
    QuotientBounds(to, COOLDOWN + 1, to / (COOLDOWN + 1));
    assert ProbeTime(MaxInARow(to)) <= to;
  }
}
