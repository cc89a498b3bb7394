/** The three-state circuit breaker of pkg/errors/recovery.go: its critical sections as
    functions on a value, and the object that updates its fields in place. */
module Breaker {
  import opened Common

  datatype State = Closed | HalfOpen | Open

  datatype Config = Config(maxFailures: int, resetTimeout: int, halfOpenMaxCalls: int) {
    predicate Valid() {
      maxFailures > 0 && resetTimeout > 0 && halfOpenMaxCalls > 0
    }

    /** Successes that close a half-open breaker. At least one is always needed, because
        the count is compared only after a success was added to it. */
    function Quota(): int {
      Max(1, halfOpenMaxCalls / 2)
    }
  }

  /** Replaces the settings that are not positive by the defaults. */
  function WithDefaults(c: Config): (r: Config)
    ensures r.Valid()
    ensures r.maxFailures == if c.maxFailures > 0 then c.maxFailures else 5
    ensures r.resetTimeout == if c.resetTimeout > 0 then c.resetTimeout else 30 * SECOND
    ensures r.halfOpenMaxCalls == if c.halfOpenMaxCalls > 0 then c.halfOpenMaxCalls else 3
  {
    Config(
      if c.maxFailures <= 0 then 5 else c.maxFailures,
      if c.resetTimeout <= 0 then 30 * SECOND else c.resetTimeout,
      if c.halfOpenMaxCalls <= 0 then 3 else c.halfOpenMaxCalls)
  }

  /** The mutable fields of a breaker. */
  datatype Core = Core(state: State, failures: int, lastFailTime: int, halfOpenCalls: int, halfOpenSuccesses: int)

  const FRESH := Core(Closed, 0, 0, 0, 0)

  predicate Cooled(c: Config, b: Core, now: int) {
    now - b.lastFailTime > c.resetTimeout
  }

  /** What the section under the read lock decides. */
  datatype Verdict = Admit | Refuse | TryUpgrade

  function ReadCheck(c: Config, b: Core, now: int): Verdict {
    match b.state
    case Closed => Admit
    case Open => if Cooled(c, b, now) then TryUpgrade else Refuse
    case HalfOpen => if b.halfOpenCalls < c.halfOpenMaxCalls then Admit else Refuse
  }

  /** The section under the write lock, with its second look at the state. */
  function UpgradeIfCooled(c: Config, b: Core, now: int): Core {
    if b.state.Open? && Cooled(c, b, now)
    then b.(state := HalfOpen, halfOpenCalls := 0, halfOpenSuccesses := 0)
    else b
  }

  function OnSuccess(c: Config, b: Core): Core {
    match b.state
    case Closed => b.(failures := 0)
    case HalfOpen =>
      var b' := b.(halfOpenSuccesses := b.halfOpenSuccesses + 1, halfOpenCalls := b.halfOpenCalls + 1);
      if b'.halfOpenSuccesses >= c.halfOpenMaxCalls / 2 then b'.(state := Closed, failures := 0) else b'
    case Open => b
  }

  function OnFailure(c: Config, b: Core, now: int): Core {
    match b.state
    case Closed =>
      var b' := b.(failures := b.failures + 1);
      if b'.failures >= c.maxFailures then b'.(state := Open, lastFailTime := now) else b'
    case HalfOpen => b.(state := Open, lastFailTime := now, failures := b.failures + 1)
    case Open => b
  }

  function OnOutcome(c: Config, b: Core, ok: bool, now: int): Core {
    if ok then OnSuccess(c, b) else OnFailure(c, b, now)
  }

  /** One whole gate check that nobody interrupts. The clock is read once under the read
      lock and once more under the write lock. */
  function Allow(c: Config, b: Core, now: int, relocked: int): (Core, bool) {
    match ReadCheck(c, b, now)
    case Admit => (b, true)
    case Refuse => (b, false)
    case TryUpgrade =>
      var b' := UpgradeIfCooled(c, b, relocked);
      (b', b'.state.HalfOpen?)
  }

  /** What every critical section keeps. */
  predicate Inv(c: Config, b: Core) {
    && 0 <= b.failures
    && (b.state.Closed? <==> b.failures < c.maxFailures)
    && (b.state.HalfOpen? ==> 0 <= b.halfOpenCalls == b.halfOpenSuccesses < c.Quota())
  }

  lemma SectionsKeepInv(c: Config, b: Core, ok: bool, now: int)
    requires c.Valid() && Inv(c, b)
    ensures Inv(c, UpgradeIfCooled(c, b, now))
    ensures Inv(c, OnOutcome(c, b, ok, now))
  {
  }

  /** A breaker refuses exactly while it is open and its cool-down has not passed; the
      limit on half-open calls never refuses anyone. */
  lemma AllowMeaning(c: Config, b: Core, now: int, relocked: int)
    requires c.Valid() && Inv(c, b) && now <= relocked
    ensures var (b', allowed) := Allow(c, b, now, relocked);
      && Inv(c, b')
      && (allowed <==> !(b.state.Open? && now <= b.lastFailTime + c.resetTimeout))
      && (allowed <==> !b'.state.Open?)
      && (!(allowed && b.state.Open?) ==> b' == b)
  {
    assert c.Quota() <= c.halfOpenMaxCalls;
  }

  /** Length of the run of failures that ends a history of outcomes. */
  function TrailingFailures(outcomes: seq<bool>): nat {
    if outcomes == [] || outcomes[|outcomes| - 1] then 0
    else 1 + TrailingFailures(outcomes[..|outcomes| - 1])
  }

  lemma TrailingFailuresSnoc(outcomes: seq<bool>, ok: bool)
    ensures TrailingFailures(outcomes + [ok]) == if ok then 0 else 1 + TrailingFailures(outcomes)
  {
    assert (outcomes + [ok])[..|outcomes|] == outcomes;
  }

  class CircuitBreaker {
    const config: Config
    var state: State
    var failures: int
    var lastFailTime: int
    var halfOpenCalls: int
    var halfOpenSuccesses: int
    /** Every outcome recorded so far, oldest first. */
    ghost var outcomes: seq<bool>

    function View(): Core
      reads this
    {
      Core(state, failures, lastFailTime, halfOpenCalls, halfOpenSuccesses)
    }

    ghost predicate Valid()
      reads this
    {
      && config.Valid()
      && Inv(config, View())
      && (state.Closed? ==> failures == TrailingFailures(outcomes))
    }

    constructor (c: Config)
      ensures Valid() && View() == FRESH && outcomes == []
      ensures config == WithDefaults(c)
    {
      config := WithDefaults(c);
      state, failures, lastFailTime, halfOpenCalls, halfOpenSuccesses := Closed, 0, 0, 0, 0;
      outcomes := [];
    }

    method AllowRequest(now: int, relocked: int) returns (allowed: bool)
      requires Valid()
      modifies `state, `halfOpenCalls, `halfOpenSuccesses
      ensures Valid()
      ensures (View(), allowed) == Allow(config, old(View()), now, relocked)
    {
      match state {
        case Closed =>
          return true;
        case Open =>
          if now - lastFailTime > config.resetTimeout {
            if state == Open && relocked - lastFailTime > config.resetTimeout {
              state := HalfOpen;
              halfOpenCalls := 0;
              halfOpenSuccesses := 0;
            }
          }
          return state == HalfOpen;
        case HalfOpen =>
          return halfOpenCalls < config.halfOpenMaxCalls;
      }
    }

    method RecordResult(ok: bool, now: int)
      requires Valid()
      modifies this
      ensures Valid()
      ensures View() == OnOutcome(config, old(View()), ok, now)
      ensures outcomes == old(outcomes) + [ok]
    {
      TrailingFailuresSnoc(outcomes, ok);
      if ok {
        RecordSuccess();
      } else {
        RecordFailure(now);
      }
      outcomes := outcomes + [ok];
    }

    method RecordSuccess()
      requires config.Valid() && Inv(config, View())
      modifies `state, `failures, `halfOpenCalls, `halfOpenSuccesses
      ensures Inv(config, View()) && View() == OnSuccess(config, old(View()))
    {
      match state {
        case Closed =>
          failures := 0;
        case HalfOpen =>
          halfOpenSuccesses := halfOpenSuccesses + 1;
          halfOpenCalls := halfOpenCalls + 1;
          if halfOpenSuccesses >= config.halfOpenMaxCalls / 2 {
            state := Closed;
            failures := 0;
          }
        case Open =>
      }
    }

    method RecordFailure(now: int)
      requires config.Valid() && Inv(config, View())
      modifies `state, `failures, `lastFailTime
      ensures Inv(config, View()) && View() == OnFailure(config, old(View()), now)
    {
      match state {
        case Closed =>
          failures := failures + 1;
          if failures >= config.maxFailures {
            state := Open;
            lastFailTime := now;
          }
        case HalfOpen =>
          state := Open;
          lastFailTime := now;
          failures := failures + 1;
        case Open =>
      }
    }
  }
}
