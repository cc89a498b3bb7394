/** Retry nested in a circuit breaker, with the errors reported: ExecuteWithRecovery of
    pkg/errors/recovery.go:616-675. */
module Recovery {
  import opened Common
  import opened Errors
  import opened Breaker
  import opened Retry
  import Reporter

  /** One call of an operation: the clock at the gate (under the read lock and, if it comes to
      that, under the write lock), when its result is recorded and when it is reported, and
      what happens to the function inside. */
  datatype Call = Call(start: int, relocked: int, done: int, reported: int, env: Env)

  const OPEN_ERROR := EnhancedError(503, "Circuit breaker is open", "unavailable", "high", "", false, true)

  /** The breaker afterwards, whether the gate admitted the call, its result, and how often
      the function ran. */
  datatype Effect = Effect(core: Core, admitted: bool, result: Result, runs: nat)

  /** The breaker around the retries. A panic passes it by without being recorded. */
  function Guarded(c: Config, p: RetryPolicy, b: Core, call: Call): Effect {
    var (gated, allowed) := Allow(c, b, call.start, call.relocked);
    if !allowed then Effect(gated, false, Returned(Some(Enhanced(OPEN_ERROR))), 0)
    else
      var r := ExecuteSpec(p, call.env);
      match r.result
      case Panicked => Effect(gated, true, Panicked, r.calls)
      case Returned(err) => Effect(OnOutcome(c, gated, err.None?, call.done), true, r.result, r.calls)
  }

  // ---- The object ----

  class RecoveryManager {
    var circuitBreakers: map<string, CircuitBreaker>
    const retryPolicy: RetryPolicy
    const errorReporter: Reporter.ErrorReporter

    ghost predicate Valid()
      reads this, errorReporter, circuitBreakers.Values
    {
      errorReporter.Valid() && Guarding()
    }

    /** Every operation that has a breaker has one of its own. */
    ghost predicate Guarding()
      reads `circuitBreakers, circuitBreakers.Values
    {
      && (forall name :: name in circuitBreakers ==> circuitBreakers[name].Valid())
      && (forall n, m :: n in circuitBreakers && m in circuitBreakers && n != m
            ==> circuitBreakers[n] != circuitBreakers[m])
    }

    constructor ()
      ensures Valid() && circuitBreakers == map[] && retryPolicy == DEFAULT && fresh(errorReporter)
    {
      circuitBreakers := map[];
      retryPolicy := DEFAULT;
      errorReporter := new Reporter.ErrorReporter(1000);
    }

    method AddCircuitBreaker(name: string, config: Config)
      requires Valid()
      modifies `circuitBreakers
      ensures Valid()
      ensures circuitBreakers.Keys == old(circuitBreakers).Keys + {name}
      ensures fresh(circuitBreakers[name]) && circuitBreakers[name].View() == FRESH
      ensures circuitBreakers[name].config == WithDefaults(config)
      ensures forall n :: n in old(circuitBreakers) && n != name ==> circuitBreakers[n] == old(circuitBreakers)[n]
    {
      var cb := new CircuitBreaker(config);
      circuitBreakers := circuitBreakers[name := cb];
    }

    /** Only the breaker of the operation and the reporter can change, and an enhanced error is
        reported exactly when it is returned. */
    method ExecuteWithRecovery(operation: string, call: Call) returns (result: Result, runs: nat)
      requires Valid() && errorReporter.NotBefore(call.reported)
      modifies errorReporter, circuitBreakers.Values
      ensures Valid()
      ensures operation !in circuitBreakers ==>
                var r := ExecuteSpec(retryPolicy, call.env); result == r.result && runs == r.calls
      ensures operation in circuitBreakers ==>
                var cb := circuitBreakers[operation];
                var effect := Guarded(cb.config, retryPolicy, old(cb.View()), call);
                cb.View() == effect.core && result == effect.result && runs == effect.runs
      ensures forall name :: name in circuitBreakers && name != operation ==>
                circuitBreakers[name].View() == old(circuitBreakers[name].View())
      ensures errorReporter.events == old(errorReporter.events)
              + (if result.Returned? && result.err.Some? && result.err.value.Enhanced?
                 then [Reporter.Report(result.err.value.e, call.reported)] else [])
    {
      result, runs := ExecuteOperation(operation, call);
      ReportResult(result, call.reported);
    }

    method ReportResult(result: Result, now: int)
      requires errorReporter.Valid() && errorReporter.NotBefore(now)
      modifies errorReporter
      ensures errorReporter.Valid()
      ensures errorReporter.events == old(errorReporter.events)
              + (if result.Returned? && result.err.Some? && result.err.value.Enhanced?
                 then [Reporter.Report(result.err.value.e, now)] else [])
    {
      if result.Returned? && result.err.Some? && result.err.value.Enhanced? {
        errorReporter.ReportError(Some(result.err.value.e), now);
      }
    }

    /** The retries, inside the breaker of the operation if it has one. */
    method ExecuteOperation(operation: string, call: Call) returns (result: Result, runs: nat)
      requires Guarding()
      modifies circuitBreakers.Values
      ensures Guarding()
      ensures operation !in circuitBreakers ==>
                var r := ExecuteSpec(retryPolicy, call.env); result == r.result && runs == r.calls
      ensures operation in circuitBreakers ==>
                var cb := circuitBreakers[operation];
                var effect := Guarded(cb.config, retryPolicy, old(cb.View()), call);
                cb.View() == effect.core && result == effect.result && runs == effect.runs
      ensures forall name :: name in circuitBreakers && name != operation ==>
                circuitBreakers[name].View() == old(circuitBreakers[name].View())
    {
      if operation in circuitBreakers {
        result, runs := ExecuteGuarded(circuitBreakers[operation], retryPolicy, call);
      } else {
        var waited;
        result, runs, waited := Execute(retryPolicy, call.env);
      }
    }
  }

  /** The breaker's Execute around the retries. */
  method ExecuteGuarded(cb: CircuitBreaker, p: RetryPolicy, call: Call) returns (result: Result, runs: nat)
    requires cb.Valid()
    modifies cb
    ensures cb.Valid()
    ensures var effect := Guarded(cb.config, p, old(cb.View()), call);
      cb.View() == effect.core && result == effect.result && runs == effect.runs
  {
    var allowed := cb.AllowRequest(call.start, call.relocked);
    if !allowed {
      return Returned(Some(Enhanced(OPEN_ERROR))), 0;
    }
    var waited;
    result, runs, waited := Execute(p, call.env);
    if result.Panicked? {
      return;
    }
    cb.RecordResult(result.err.None?, call.done);
  }

  // ---- What a caller can conclude from the answer ----

  predicate IsUnavailable(result: Result) {
    result == Returned(Some(Enhanced(
      EnhancedError(503, "Circuit breaker is open", "unavailable", "high", "", false, true))))
  }

  /** A call is refused exactly during a cool-down. It then runs nothing, changes nothing and is
      told that the service is unavailable; otherwise it gets the answer of the retries. */
  lemma RefusedIff(c: Config, p: RetryPolicy, b: Core, call: Call)
    requires c.Valid() && Inv(c, b) && call.start <= call.relocked
    ensures var e := Guarded(c, p, b, call);
      && (!e.admitted <==> b.state.Open? && call.start <= b.lastFailTime + c.resetTimeout)
      && (!e.admitted ==> e.core == b && e.runs == 0 && IsUnavailable(e.result))
      && (e.admitted ==> e.runs == ExecuteSpec(p, call.env).calls && e.result == ExecuteSpec(p, call.env).result)
  {
    AllowMeaning(c, b, call.start, call.relocked);
  }

  /** Nil means that the call was admitted and its last run succeeded. */
  lemma NilMeansSuccess(c: Config, p: RetryPolicy, b: Core, call: Call)
    requires p.maxAttempts >= 1
    ensures var e := Guarded(c, p, b, call);
      e.result == Returned(None) ==> e.admitted && e.runs >= 1 && call.env.outcome(e.runs).Ok?
  {
    ExecuteMeaning(p, call.env);
  }

  /** A panic is recorded neither as a success nor as a failure: it leaves behind what the gate
      did. */
  lemma PanicIsUnrecorded(c: Config, p: RetryPolicy, b: Core, call: Call)
    requires c.Valid() && Inv(c, b) && call.start <= call.relocked
    requires Guarded(c, p, b, call).result.Panicked?
    ensures var e := Guarded(c, p, b, call);
      if b.state.Open?
      then e.core == Core(HalfOpen, b.failures, b.lastFailTime, 0, 0)
      else e.core == b
  {
    AllowMeaning(c, b, call.start, call.relocked);
  }

  // ---- Sequential runs against one operation ----

  function After(c: Config, p: RetryPolicy, calls: seq<Call>): Core {
    if calls == [] then FRESH
    else Guarded(c, p, After(c, p, calls[..|calls| - 1]), calls[|calls| - 1]).core
  }

  /** The effect of the k-th call of a run. */
  function EffectAt(c: Config, p: RetryPolicy, calls: seq<Call>, k: nat): Effect
    requires k < |calls|
  {
    Guarded(c, p, After(c, p, calls[..k]), calls[k])
  }

  function Admitted(c: Config, p: RetryPolicy, calls: seq<Call>): nat {
    if calls == [] then 0
    else
      var k := |calls| - 1;
      Admitted(c, p, calls[..k]) + (if EffectAt(c, p, calls, k).admitted then 1 else 0)
  }

  function Runs(c: Config, p: RetryPolicy, calls: seq<Call>): nat {
    if calls == [] then 0
    else
      var k := |calls| - 1;
      Runs(c, p, calls[..k]) + EffectAt(c, p, calls, k).runs
  }

  lemma RunSnoc(c: Config, p: RetryPolicy, calls: seq<Call>, call: Call)
    ensures var effect := Guarded(c, p, After(c, p, calls), call);
      && After(c, p, calls + [call]) == effect.core
      && Admitted(c, p, calls + [call]) == Admitted(c, p, calls) + (if effect.admitted then 1 else 0)
      && Runs(c, p, calls + [call]) == Runs(c, p, calls) + effect.runs
  {
    assert (calls + [call])[..|calls|] == calls;
  }

  /** One call after the other, all gates between `from` and `to`. */
  ghost predicate InOrder(calls: seq<Call>, from: int, to: int) {
    && from <= to
    && (forall i :: 0 <= i < |calls| ==>
          from <= calls[i].start <= calls[i].relocked <= calls[i].done && calls[i].start <= to)
    && (forall i, j :: 0 <= i < j < |calls| ==> calls[i].done <= calls[j].start)
  }

  /** The retries end with an error that the breaker gets to see. */
  predicate EndsInError(p: RetryPolicy, env: Env) {
    var result := ExecuteSpec(p, env).result;
    result.Returned? && result.err.Some?
  }

  lemma FailingFunctionEndsInError(p: RetryPolicy, env: Env)
    requires p.maxAttempts >= 1
    requires forall k: nat :: env.outcome(k).Fail? && !AnnotationPanics(env.outcome(k).err)
    ensures EndsInError(p, env)
  {
    ExecuteMeaning(p, env);
    var k := ExecuteSpec(p, env).calls;
    assert env.outcome(k).Fail? && !AnnotationPanics(env.outcome(k).err);
  }

  lemma RunsWhenAdmitted(c: Config, p: RetryPolicy, b: Core, call: Call)
    requires p.maxAttempts >= 1
    ensures var effect := Guarded(c, p, b, call); effect.runs <= if effect.admitted then p.maxAttempts else 0
  {
    ExecuteMeaning(p, call.env);
  }

  lemma OneMoreAdmission(most: int, runs: int, admitted: int, effect: Effect)
    requires runs <= most * admitted && effect.runs <= if effect.admitted then most else 0
    ensures runs + effect.runs <= most * (admitted + (if effect.admitted then 1 else 0))
  {
    assert most * (admitted + 1) == most * admitted + most;
  }

  lemma {:induction false} RunsPerAdmission(c: Config, p: RetryPolicy, calls: seq<Call>)
    requires p.maxAttempts >= 1
    ensures Runs(c, p, calls) <= p.maxAttempts * Admitted(c, p, calls)
  {
    if calls == [] {
    } else {
      var before, last := calls[..|calls| - 1], calls[|calls| - 1];
      RunsPerAdmission(c, p, before);
      var effect := Guarded(c, p, After(c, p, before), last);
      RunsWhenAdmitted(c, p, After(c, p, before), last);
      OneMoreAdmission(p.maxAttempts, Runs(c, p, before), Admitted(c, p, before), effect);
    }
  }

  /** The least time that `n` cool-downs take. */
  function Cooldowns(c: Config, n: int): int {
    n * (c.resetTimeout + 1)
  }

  /** After `admitted` calls that all ended in an error. Each admission beyond the first
      maxFailures had to wait for one more reset timeout. */
  predicate DeadInv(c: Config, from: int, to: int, b: Core, admitted: nat) {
    && Inv(c, b)
    && !b.state.HalfOpen?
    && (b.state.Closed? ==> admitted == b.failures)
    && (b.state.Open? ==>
          && admitted >= c.maxFailures
          && b.lastFailTime >= from + Cooldowns(c, admitted - c.maxFailures)
          && to >= from + Cooldowns(c, admitted - c.maxFailures))
  }

  lemma OneMoreCooldown(c: Config, n: int)
    ensures Cooldowns(c, n + 1) == Cooldowns(c, n) + c.resetTimeout + 1
    ensures Cooldowns(c, 0) == 0
  {
  }

  lemma DeadStep(c: Config, p: RetryPolicy, from: int, to: int, b: Core, admitted: nat, call: Call)
    requires c.Valid() && DeadInv(c, from, to, b, admitted) && EndsInError(p, call.env)
    requires from <= call.start <= call.relocked <= call.done && call.start <= to
    ensures var effect := Guarded(c, p, b, call);
      DeadInv(c, from, to, effect.core, admitted + (if effect.admitted then 1 else 0))
  {
    AllowMeaning(c, b, call.start, call.relocked);
    OneMoreCooldown(c, admitted - c.maxFailures);
  }

  lemma DeadSnoc(c: Config, p: RetryPolicy, calls: seq<Call>, last: Call, from: int, to: int)
    requires c.Valid() && EndsInError(p, last.env)
    requires from <= last.start <= last.relocked <= last.done && last.start <= to
    requires DeadInv(c, from, to, After(c, p, calls), Admitted(c, p, calls))
    ensures DeadInv(c, from, to, After(c, p, calls + [last]), Admitted(c, p, calls + [last]))
  {
    DeadStep(c, p, from, to, After(c, p, calls), Admitted(c, p, calls), last);
    RunSnoc(c, p, calls, last);
  }

  lemma {:induction false} DeadInvariant(c: Config, p: RetryPolicy, calls: seq<Call>, from: int, to: int)
    requires c.Valid() && InOrder(calls, from, to)
    requires forall i :: 0 <= i < |calls| ==> EndsInError(p, calls[i].env)
    ensures DeadInv(c, from, to, After(c, p, calls), Admitted(c, p, calls))
  {
    if calls == [] {
    } else {
      var before, last := calls[..|calls| - 1], calls[|calls| - 1];
      assert calls == before + [last];
      InOrderPrefix(before, last, from, to);
      DeadInvariant(c, p, before, from, to);
      DeadSnoc(c, p, before, last, from, to);
    }
  }

  /** Calls that a failing backend can get in `elapsed` nanoseconds: those that open the breaker,
      and one more for each time the reset timeout is exceeded. */
  function MaxAdmissions(c: Config, elapsed: nat): int
    requires c.Valid()
  {
    c.maxFailures + elapsed / (c.resetTimeout + 1)
  }

  lemma DeadBackendAdmissions(c: Config, p: RetryPolicy, calls: seq<Call>, from: int, to: int)
    requires c.Valid() && InOrder(calls, from, to)
    requires forall i :: 0 <= i < |calls| ==> EndsInError(p, calls[i].env)
    ensures Admitted(c, p, calls) <= MaxAdmissions(c, to - from)
  {
    DeadInvariant(c, p, calls, from, to);
    DeadInvGivesBound(c, from, to, After(c, p, calls), Admitted(c, p, calls));
  }

  /** A backend that only fails is called at most maxFailures times plus once per reset
      timeout, whatever the call times; the function runs at most maxAttempts times that. */
  lemma DeadBackendLoad(c: Config, p: RetryPolicy, calls: seq<Call>, from: int, to: int)
    requires c.Valid() && p.maxAttempts >= 1 && InOrder(calls, from, to)
    requires forall i :: 0 <= i < |calls| ==> EndsInError(p, calls[i].env)
    ensures Admitted(c, p, calls) <= MaxAdmissions(c, to - from)
    ensures Runs(c, p, calls) <= p.maxAttempts * MaxAdmissions(c, to - from)
  {
    DeadBackendAdmissions(c, p, calls, from, to);
    RunsPerAdmission(c, p, calls);
    MulMono(p.maxAttempts, Admitted(c, p, calls), MaxAdmissions(c, to - from));
  }

  lemma DeadInvGivesBound(c: Config, from: int, to: int, b: Core, admitted: nat)
    requires c.Valid() && DeadInv(c, from, to, b, admitted) && from <= to
    ensures admitted <= MaxAdmissions(c, to - from)
  {
    if b.state.Open? {
      QuotientBounds(to - from, c.resetTimeout + 1, admitted - c.maxFailures);
    }
  }

  // ---- A backend that has recovered ----

  /** The call answers nil if it is admitted. */
  predicate Succeeds(p: RetryPolicy, call: Call) {
    ExecuteSpec(p, call.env).result == Returned(None)
  }

  /** The breaker after `n` more successes than in the state `b`: it closes exactly when they
      make up what is missing to the quota, and counts them until then. */
  predicate Recovering(c: Config, b: Core, n: nat, b': Core) {
    var missing := match b.state
      case Closed => 0
      case HalfOpen => c.Quota() - b.halfOpenSuccesses
      case Open => c.Quota();
    if n == 0 then b' == b
    else if n >= missing then b'.state.Closed? && b'.failures == 0
    else b'.state.HalfOpen? && c.Quota() - b'.halfOpenSuccesses == missing - n
  }

  lemma RecoveringStep(c: Config, p: RetryPolicy, b: Core, n: nat, b': Core, call: Call)
    requires c.Valid() && Inv(c, b) && Inv(c, b') && Recovering(c, b, n, b') && Succeeds(p, call)
    requires call.start <= call.relocked && (b.state.Open? ==> call.start > b.lastFailTime + c.resetTimeout)
    ensures var e := Guarded(c, p, b', call);
      e.admitted && Inv(c, e.core) && Recovering(c, b, n + 1, e.core)
  {
    AllowMeaning(c, b', call.start, call.relocked);
    var gated := Allow(c, b', call.start, call.relocked).0;
    SectionsKeepInv(c, gated, true, call.done);
  }

  lemma GuardedKeepsInv(c: Config, p: RetryPolicy, b: Core, call: Call)
    requires c.Valid() && Inv(c, b) && call.start <= call.relocked
    ensures Inv(c, Guarded(c, p, b, call).core)
  {
    AllowMeaning(c, b, call.start, call.relocked);
    var gated := Allow(c, b, call.start, call.relocked).0;
    SectionsKeepInv(c, gated, true, call.done);
    SectionsKeepInv(c, gated, false, call.done);
  }

  lemma {:induction false} RunKeepsInv(c: Config, p: RetryPolicy, calls: seq<Call>, from: int, to: int)
    requires c.Valid() && InOrder(calls, from, to)
    ensures Inv(c, After(c, p, calls))
  {
    if calls == [] {
    } else {
      var before, last := calls[..|calls| - 1], calls[|calls| - 1];
      RunKeepsInv(c, p, before, from, to);
      GuardedKeepsInv(c, p, After(c, p, before), last);
    }
  }

  /** Whatever happened in the calls `past`, once every call succeeds and the cool-down is over,
      every call is admitted, and the breaker closes with exactly the one that fills the quota. */
  lemma {:induction false} RecoveredBackendIsServed(c: Config, p: RetryPolicy, past: seq<Call>, calls: seq<Call>,
                                                    from: int, to: int)
    requires c.Valid() && InOrder(past + calls, from, to)
    requires forall i :: 0 <= i < |calls| ==> Succeeds(p, calls[i])
    requires var b := After(c, p, past);
      b.state.Open? ==> forall i :: 0 <= i < |calls| ==> calls[i].start > b.lastFailTime + c.resetTimeout
    ensures Recovering(c, After(c, p, past), |calls|, After(c, p, past + calls))
    ensures Admitted(c, p, past + calls) == Admitted(c, p, past) + |calls|
  {
    if calls == [] {
      assert past + calls == past;
    } else {
      var before, last := calls[..|calls| - 1], calls[|calls| - 1];
      assert past + calls == past + before + [last];
      InOrderPrefix(past + before, last, from, to);
      InOrderParts(past, before, from, to);
      RecoveredBackendIsServed(c, p, past, before, from, to);
      RunKeepsInv(c, p, past, from, to);
      RunKeepsInv(c, p, past + before, from, to);
      RecoveringStep(c, p, After(c, p, past), |before|, After(c, p, past + before), last);
      RunSnoc(c, p, past + before, last);
    }
  }

  lemma InOrderPrefix(calls: seq<Call>, last: Call, from: int, to: int)
    requires InOrder(calls + [last], from, to)
    ensures InOrder(calls, from, to)
    ensures from <= last.start <= last.relocked <= last.done && last.start <= to
  {
    var all := calls + [last];
    assert forall i :: 0 <= i < |calls| ==> all[i] == calls[i];
    assert all[|calls|] == last;
  }

  lemma InOrderParts(past: seq<Call>, calls: seq<Call>, from: int, to: int)
    requires InOrder(past + calls, from, to)
    ensures InOrder(past, from, to)
  {
    assert forall i :: 0 <= i < |past| ==> (past + calls)[i] == past[i];
  }

  // ---- Quiet after a trip ----

  /** The call opened the breaker, or opened it again. */
  predicate TripsAt(c: Config, p: RetryPolicy, calls: seq<Call>, i: nat)
    requires i < |calls|
  {
    EffectAt(c, p, calls, i).admitted && EffectAt(c, p, calls, i).core.state.Open?
  }

  /** After a trip recorded at `tripped`: the breaker is still in that cool-down, or the latest
      call began after it. */
  predicate Quiet(c: Config, tripped: int, b: Core, latest: int) {
    (b.state.Open? && b.lastFailTime == tripped) || latest > tripped + c.resetTimeout
  }

  lemma QuietStep(c: Config, p: RetryPolicy, tripped: int, b: Core, latest: int, call: Call)
    requires c.Valid() && Inv(c, b) && Quiet(c, tripped, b, latest) && latest <= call.start <= call.relocked
    ensures Quiet(c, tripped, Guarded(c, p, b, call).core, call.start)
  {
    AllowMeaning(c, b, call.start, call.relocked);
  }

  lemma TripIsQuiet(c: Config, p: RetryPolicy, b: Core, call: Call)
    requires c.Valid() && Inv(c, b) && call.start <= call.relocked
    requires Guarded(c, p, b, call).admitted && Guarded(c, p, b, call).core.state.Open?
    ensures Quiet(c, call.done, Guarded(c, p, b, call).core, call.start)
  {
    AllowMeaning(c, b, call.start, call.relocked);
  }

  lemma PrefixKeepsInv(c: Config, p: RetryPolicy, calls: seq<Call>, from: int, to: int, k: nat)
    requires c.Valid() && InOrder(calls, from, to) && k <= |calls|
    ensures Inv(c, After(c, p, calls[..k]))
  {
    assert calls[..k] + calls[k..] == calls;
    InOrderParts(calls[..k], calls[k..], from, to);
    RunKeepsInv(c, p, calls[..k], from, to);
  }

  lemma {:induction false} QuietInvariant(c: Config, p: RetryPolicy, calls: seq<Call>, from: int, to: int,
                                          i: nat, k: nat)
    requires c.Valid() && InOrder(calls, from, to) && i < k <= |calls| && TripsAt(c, p, calls, i)
    ensures Quiet(c, calls[i].done, After(c, p, calls[..k]), calls[k - 1].start)
  {
    PrefixKeepsInv(c, p, calls, from, to, k - 1);
    RunSnoc(c, p, calls[..k - 1], calls[k - 1]);
    assert calls[..k] == calls[..k - 1] + [calls[k - 1]];
    if k == i + 1 {
      TripIsQuiet(c, p, After(c, p, calls[..i]), calls[i]);
    } else {
      QuietInvariant(c, p, calls, from, to, i, k - 1);
      QuietStep(c, p, calls[i].done, After(c, p, calls[..k - 1]), calls[k - 2].start, calls[k - 1]);
    }
  }

  /** After a call that trips the breaker, no call is admitted until more than the reset timeout
      has passed since that call's end was recorded. */
  lemma QuietAfterTrip(c: Config, p: RetryPolicy, calls: seq<Call>, from: int, to: int, i: nat, j: nat)
    requires c.Valid() && InOrder(calls, from, to) && i < j < |calls|
    requires TripsAt(c, p, calls, i) && EffectAt(c, p, calls, j).admitted
    ensures calls[j].start > calls[i].done + c.resetTimeout
  {
    QuietInvariant(c, p, calls, from, to, i, j);
    PrefixKeepsInv(c, p, calls, from, to, j);
    RefusedIff(c, p, After(c, p, calls[..j]), calls[j]);
  }

  // ---- The bound is reached ----

  /** Instant 0 for the calls that open the breaker, and then one after every cool-down. */
  function ProbeTime(c: Config, n: nat): int {
    if n == 0 || n <= c.maxFailures then 0 else ProbeTime(c, n - 1) + c.resetTimeout + 1
  }

  function Probe(c: Config, env: Env, n: nat): Call {
    Call(ProbeTime(c, n), ProbeTime(c, n), ProbeTime(c, n), ProbeTime(c, n), env)
  }

  /** The breaker after `n` failures on that schedule. */
  predicate Probed(c: Config, b: Core, n: nat) {
    && b.failures == n
    && (n < c.maxFailures ==> b.state.Closed?)
    && (n >= c.maxFailures ==> b.state.Open? && b.lastFailTime == ProbeTime(c, n))
  }

  lemma ProbeIsAdmitted(c: Config, p: RetryPolicy, env: Env, b: Core, n: nat)
    requires c.Valid() && EndsInError(p, env) && n > 0 && Probed(c, b, n - 1)
    ensures var effect := Guarded(c, p, b, Probe(c, env, n));
      effect.admitted && Probed(c, effect.core, n)
  {
  }

  lemma ProbeAppended(c: Config, p: RetryPolicy, env: Env, calls: seq<Call>, n: nat)
    requires c.Valid() && EndsInError(p, env) && n > 0
    requires Admitted(c, p, calls) == n - 1 && Probed(c, After(c, p, calls), n - 1)
    ensures var calls' := calls + [Probe(c, env, n)];
      Admitted(c, p, calls') == n && Probed(c, After(c, p, calls'), n)
  {
    ProbeIsAdmitted(c, p, env, After(c, p, calls), n);
    RunSnoc(c, p, calls, Probe(c, env, n));
  }

  /** A failing backend is still probed: there is a schedule of any length on which every call
      is admitted. */
  lemma {:induction false} ProbesAreAdmitted(c: Config, p: RetryPolicy, env: Env, n: nat) returns (calls: seq<Call>)
    requires c.Valid() && EndsInError(p, env)
    ensures |calls| == n && InOrder(calls, 0, ProbeTime(c, n))
    ensures forall i :: 0 <= i < n ==> calls[i] == Probe(c, env, i + 1)
    ensures Admitted(c, p, calls) == n && Probed(c, After(c, p, calls), n)
  {
    if n == 0 {
      calls := [];
    } else {
      var before := ProbesAreAdmitted(c, p, env, n - 1);
      ProbeAppended(c, p, env, before, n);
      calls := before + [Probe(c, env, n)];
      ProbesInOrder(c, env, calls);
    }
  }

  lemma ProbesInOrder(c: Config, env: Env, calls: seq<Call>)
    requires c.Valid() && forall i :: 0 <= i < |calls| ==> calls[i] == Probe(c, env, i + 1)
    ensures InOrder(calls, 0, ProbeTime(c, |calls|))
  {
    ProbeTimeGrows(c, 0, |calls|);
    forall i | 0 <= i < |calls|
      ensures 0 <= calls[i].start <= ProbeTime(c, |calls|)
    {
      ProbeTimeGrows(c, i + 1, |calls|);
    }
    forall i, j | 0 <= i < j < |calls|
      ensures calls[i].done <= calls[j].start
    {
      ProbeTimeGrows(c, i + 1, j + 1);
    }
  }

  lemma {:induction false} ProbeTimeGrows(c: Config, m: nat, n: nat)
    requires c.Valid() && m <= n
    ensures 0 <= ProbeTime(c, m) <= ProbeTime(c, n)
    decreases n
  {
    if n == 0 {
    } else {
      ProbeTimeGrows(c, if m < n then m else n - 1, n - 1);
    }
  }

  lemma {:induction false} ProbeTimeIs(c: Config, k: nat)
    requires c.Valid()
    ensures ProbeTime(c, c.maxFailures + k) == k * (c.resetTimeout + 1)
  {
    if k == 0 {
    } else {
      ProbeTimeIs(c, k - 1);
      assert k * (c.resetTimeout + 1) == (k - 1) * (c.resetTimeout + 1) + (c.resetTimeout + 1);
    }
  }

  ghost predicate AllIn(calls: seq<Call>, env: Env) {
    forall i :: 0 <= i < |calls| ==> calls[i].env == env
  }

  /** The most calls that a failing backend can get in a given time is exactly maxFailures and
      one for each time the reset timeout is exceeded: no schedule gets more through, and one
      gets as many. */
  lemma DeadBackendMaximum(c: Config, p: RetryPolicy, env: Env, to: nat) returns (most: seq<Call>)
    requires c.Valid() && EndsInError(p, env)
    ensures InOrder(most, 0, to) && AllIn(most, env)
    ensures Admitted(c, p, most) == MaxAdmissions(c, to)
    ensures forall calls: seq<Call> :: InOrder(calls, 0, to) && AllIn(calls, env)
              ==> Admitted(c, p, calls) <= Admitted(c, p, most)
  {
    ProbesFit(c, to);
    most := ProbesAreAdmitted(c, p, env, MaxAdmissions(c, to));
    forall calls: seq<Call> | InOrder(calls, 0, to) && AllIn(calls, env)
      ensures Admitted(c, p, calls) <= MaxAdmissions(c, to)
    {
      DeadBackendAdmissions(c, p, calls, 0, to);
    }
  }

  lemma ProbesFit(c: Config, to: nat)
    requires c.Valid()
    ensures MaxAdmissions(c, to) >= 0 && ProbeTime(c, MaxAdmissions(c, to)) <= to
  {
    var unit := c.resetTimeout + 1;
    var k := to / unit;
    QuotientBounds(to, unit, 0);
    QuotientBounds(to, unit, k);
    ProbeTimeIs(c, k);
  }

  // ---- When the bound fails ----

  ghost predicate AlwaysReturns(env: Env, err: Error) {
    forall k: nat :: env.outcome(k) == Fail(err) && !env.doneBefore(k) && !env.doneDuring(k)
  }

  ghost predicate LoadBoundHolds(c: Config, p: RetryPolicy, err: Error)
    requires c.Valid()
  {
    forall calls: seq<Call>, to: int ::
      InOrder(calls, 0, to) && (forall i :: 0 <= i < |calls| ==> AlwaysReturns(calls[i].env, err))
      ==> Admitted(c, p, calls) <= MaxAdmissions(c, to)
  }

  function Repeated(call: Call, n: nat): seq<Call> {
    seq(n, _ => call)
  }

  lemma RepeatedSnoc(call: Call, n: nat)
    requires n > 0
    ensures Repeated(call, n) == Repeated(call, n - 1) + [call]
  {
  }

  lemma PanicLeavesFresh(c: Config, p: RetryPolicy, call: Call)
    requires ExecuteSpec(p, call.env).result.Panicked?
    ensures var e := Guarded(c, p, FRESH, call); e.core == FRESH && e.admitted
  {
  }

  lemma {:induction false} PanicsLeaveBreakerClosed(c: Config, p: RetryPolicy, call: Call, n: nat)
    requires c.Valid() && ExecuteSpec(p, call.env).result.Panicked?
    ensures After(c, p, Repeated(call, n)) == FRESH && Admitted(c, p, Repeated(call, n)) == n
  {
    if n == 0 {
    } else {
      PanicsLeaveBreakerClosed(c, p, call, n - 1);
      PanicLeavesFresh(c, p, call);
      RunSnoc(c, p, Repeated(call, n - 1), call);
      RepeatedSnoc(call, n);
    }
  }

  /** For a function that always returns the same error the load bound holds on every schedule
      exactly when the retry loop can write its annotation into that error. Otherwise the
      annotation panics, the breaker never hears of the failures, and it stays closed. */
  lemma LoadBoundIff(c: Config, p: RetryPolicy, err: Error)
    requires c.Valid() && p.maxAttempts >= 1
    ensures LoadBoundHolds(c, p, err) <==> !(err.Enhanced? && !err.e.hasMetadata)
  {
    if AnnotationPanics(err) {
      var env := Env(_ => Fail(err), _ => false, _ => false, _ => 0);
      assert ExecuteSpec(p, env).result.Panicked? by {
        ExecuteUndisturbed(p, env);
      }
      var n := c.maxFailures + 1;
      var calls := Repeated(Call(0, 0, 0, 0, env), n);
      PanicsLeaveBreakerClosed(c, p, Call(0, 0, 0, 0, env), n);
      assert InOrder(calls, 0, 0) && MaxAdmissions(c, 0) == c.maxFailures;
      assert forall i :: 0 <= i < |calls| ==> AlwaysReturns(calls[i].env, err);
    } else {
      forall calls: seq<Call>, to: int
        | InOrder(calls, 0, to) && (forall i :: 0 <= i < |calls| ==> AlwaysReturns(calls[i].env, err))
        ensures Admitted(c, p, calls) <= MaxAdmissions(c, to)
      {
        forall i | 0 <= i < |calls|
          ensures EndsInError(p, calls[i].env)
        {
          assert AlwaysReturns(calls[i].env, err);
          FailingFunctionEndsInError(p, calls[i].env);
        }
        DeadBackendAdmissions(c, p, calls, 0, to);
      }
    }
  }
}
