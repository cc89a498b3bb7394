/** The LLM manager of internal/ai/manager.go: choosing a provider, falling back over retries
    and providers, and the statistics kept on the way. Chat and Complete are the same code
    around different provider methods, and one model stands for both. */
module Manager {
  import opened Common
  import opened ProviderBreaker

  datatype Settings = Settings(
    providers: seq<string>,
    primary: string,
    fallbackEnabled: bool,
    fallbackDelay: int,
    maxRetries: int)

  /** A provider's answer, a ProviderError, or any other error. */
  datatype Reply = Answer(text: string) | Refusal(retryable: bool, message: string) | OtherError(message: string)

  /** What the surroundings contribute to one turn of the provider loop: the clock at the gate,
      whether the provider reports itself available, the clock around its call, the reply, the
      clock when the breaker records it, and whether the context ends during the wait. */
  datatype Slot = Slot(gate: int, up: bool, sent: int, done: int, reply: Reply, recorded: int, cancelled: bool)

  datatype Done = Done(success: bool, took: int)

  /** A provider's breaker and statistics, with the history of its calls. */
  datatype Provider = Provider(circuit: Circuit, requests: int, errors: int, busy: int, history: seq<Done>)

  const NEW_PROVIDER := Provider(FRESH, 0, 0, 0, [])

  type Snapshot = map<string, Provider>

  /** isProviderAvailable. */
  function CheckAvailable(p: Provider, turn: Slot): (Provider, bool) {
    var (circuit, open) := Gate(p.circuit, turn.gate);
    (p.(circuit := circuit), open && turn.up)
  }

  /** tryChat and tryComplete. */
  function Try(p: Provider, turn: Slot): Provider {
    var success, took := turn.reply.Answer?, turn.done - turn.sent;
    Provider(
      Update(p.circuit, success, turn.recorded),
      p.requests + 1,
      p.errors + (if success then 0 else 1),
      p.busy + took,
      p.history + [Done(success, took)])
  }

  datatype Mark = Skipped | Called(reply: Reply)

  /** One turn of the loop body up to the reply. */
  function Visit(p: Provider, turn: Slot): (Provider, Mark) {
    var (p', available) := CheckAvailable(p, turn);
    if available then (Try(p', turn), Called(turn.reply)) else (p', Skipped)
  }

  /** The same on all providers. */
  function VisitIn(v: Snapshot, name: string, slot: Slot): (Snapshot, Mark)
    requires name in v
  {
    var (p, mark) := Visit(v[name], slot);
    (v[name := p], mark)
  }

  lemma VisitInSteps(v: Snapshot, name: string, slot: Slot)
    requires name in v
    ensures var (p, available) := CheckAvailable(v[name], slot); var v' := v[name := p];
      VisitIn(v, name, slot)
      == if available then (v'[name := Try(v'[name], slot)], Called(slot.reply)) else (v', Skipped)
  {
    var p := CheckAvailable(v[name], slot).0;
    assert v[name := p][name := Try(p, slot)] == v[name := Try(p, slot)];
  }

  // ---- The loops, with their turns numbered through all rounds ----

  /** `names`, one round after the other. */
  function Repeat(names: seq<string>, rounds: int): seq<string>
    decreases Max(0, rounds)
  {
    if rounds <= 0 then [] else names + Repeat(names, rounds - 1)
  }

  /** The providers in the order in which they get their turns. */
  function Plan(s: Settings): seq<string> {
    if s.fallbackEnabled then Repeat(s.providers, s.maxRetries) else s.providers
  }

  lemma {:induction false} RepeatLength(names: seq<string>, rounds: nat)
    ensures |Repeat(names, rounds)| == rounds * |names|
  {
    if rounds == 0 {
    } else {
      RepeatLength(names, rounds - 1);
      assert rounds * |names| == (rounds - 1) * |names| + |names|;
    }
  }

  lemma SmallMod(k: nat, n: nat)
    requires k < n
    ensures k % n == k
  {
    QuotientBounds(k, n, 0);
    QuotientBounds(k, n, 1);
  }

  lemma ModShift(k: int, n: int)
    requires n > 0
    ensures (k + n) % n == k % n
  {
    assert k + n == n * (k / n + 1) + k % n;
    QuotientBounds(k + n, n, k / n + 1);
    QuotientBounds(k + n, n, k / n + 2);
    assert n * (k / n + 2) == n * (k / n + 1) + n;
    assert (k + n) / n == k / n + 1;
  }

  lemma {:induction false} RepeatIndex(names: seq<string>, rounds: int, k: nat)
    requires k < |Repeat(names, rounds)|
    ensures names != [] && Repeat(names, rounds)[k] == names[k % |names|]
    decreases Max(0, rounds)
  {
    if k < |names| {
      SmallMod(k, |names|);
    } else {
      var before := k - |names|;
      RepeatIndex(names, rounds - 1, before);
      ModShift(before, |names|);
      assert Repeat(names, rounds)[k] == Repeat(names, rounds - 1)[before];
    }
  }

  predicate Serves(names: seq<string>, v: Snapshot) {
    forall i :: 0 <= i < |names| ==> names[i] in v
  }

  lemma {:induction false} PlanIsServed(names: seq<string>, rounds: int, v: Snapshot)
    requires Serves(names, v)
    ensures Serves(Repeat(names, rounds), v)
    decreases Max(0, rounds)
  {
    if rounds <= 0 {
    } else {
      PlanIsServed(names, rounds - 1, v);
    }
  }

  /** Whether a turn ends the loops: without fallback any call does; with it an answer does,
      and so does the end of the context during the wait that follows a failure, unless that
      failure was declared not retryable. */
  predicate Stops(s: Settings, mark: Mark, slot: Slot) {
    && mark.Called?
    && (|| !s.fallbackEnabled
        || mark.reply.Answer?
        || (!(mark.reply.Refusal? && !mark.reply.retryable) && s.fallbackDelay > 0 && slot.cancelled))
  }

  datatype Result =
    | Answered(text: string)
    | Failed(reply: Reply)
    | Cancelled
    | Unavailable(provider: string)
    | NotFound(provider: string)

  function ReplyResult(reply: Reply): Result {
    if reply.Answer? then Answered(reply.text) else Failed(reply)
  }

  /** A call of a provider: in which turn, to whom, and its reply. */
  datatype Attempt = Attempt(turn: nat, provider: string, reply: Reply)

  /** The providers, the result and the calls made. */
  datatype Report = Report(view: Snapshot, result: Result, trace: seq<Attempt>)

  /** What the loops carry from turn to turn. */
  datatype Carry = Carry(view: Snapshot, trace: seq<Attempt>, lastError: Option<Reply>)

  function StopReport(s: Settings, c: Carry, reply: Reply): Report {
    Report(c.view, if reply.Answer? || !s.fallbackEnabled then ReplyResult(reply) else Cancelled, c.trace)
  }

  function EndReport(c: Carry): Report {
    Report(c.view, if c.lastError.Some? then Failed(c.lastError.value) else Unavailable("manager"), c.trace)
  }

  /** One turn, number `k`, of the provider `name`. */
  function Advance(c: Carry, k: nat, name: string, slot: Slot): (Carry, Mark)
    requires name in c.view
  {
    var (view, mark) := VisitIn(c.view, name, slot);
    (if mark.Called? then Carry(view, c.trace + [Attempt(k, name, mark.reply)], Some(mark.reply))
     else c.(view := view), mark)
  }

  /** The loops with the turns `todo` still to come, the first of them number `k`. */
  function LoopFrom(s: Settings, env: nat -> Slot, k: nat, todo: seq<string>, c: Carry): Report
    requires Serves(todo, c.view)
    decreases |todo|
  {
    if todo == [] then EndReport(c)
    else
      var (c', mark) := Advance(c, k, todo[0], env(k));
      if Stops(s, mark, env(k)) then StopReport(s, c', mark.reply) else LoopFrom(s, env, k + 1, todo[1..], c')
  }

  /** The loops, with these turns to come, end in the report `goal`. */
  ghost predicate OnTheWay(s: Settings, env: nat -> Slot, k: nat, todo: seq<string>, c: Carry, goal: Report) {
    Serves(todo, c.view) && LoopFrom(s, env, k, todo, c) == goal
  }

  lemma LoopUnfold(s: Settings, env: nat -> Slot, k: nat, name: string, todo: seq<string>, c: Carry)
    requires Serves([name] + todo, c.view)
    ensures name in c.view
    ensures var (c', mark) := Advance(c, k, name, env(k));
      && Serves(todo, c'.view)
      && LoopFrom(s, env, k, [name] + todo, c)
         == if Stops(s, mark, env(k)) then StopReport(s, c', mark.reply) else LoopFrom(s, env, k + 1, todo, c')
  {
    assert ([name] + todo)[0] == name && ([name] + todo)[1..] == todo;
    forall i | 0 <= i < |todo|
      ensures todo[i] in c.view
    {
      assert todo[i] == ([name] + todo)[i + 1];
    }
  }

  function Fallback(s: Settings, v: Snapshot, env: nat -> Slot): Report
    requires Serves(s.providers, v)
  {
    PlanIsServed(s.providers, s.maxRetries, v);
    LoopFrom(s, env, 0, Plan(s), Carry(v, [], None))
  }

  /** A call of one named provider, without the gate. */
  function Ungated(v: Snapshot, name: string, slot: Slot): Report
    requires name in v
  {
    Report(v[name := Try(v[name], slot)], ReplyResult(slot.reply), [Attempt(0, name, slot.reply)])
  }

  /** chatWithFallback and completeWithFallback. */
  function WithFallback(s: Settings, v: Snapshot, env: nat -> Slot): Report
    requires Serves(s.providers, v)
  {
    if !s.fallbackEnabled && s.primary != "" && s.primary in s.providers then Ungated(v, s.primary, env(0))
    else Fallback(s, v, env)
  }

  /** Chat and Complete; `requested` is the provider named in the options, or empty. */
  function ChatSpec(s: Settings, v: Snapshot, requested: string, env: nat -> Slot): Report
    requires Serves(s.providers, v)
  {
    var target := if requested == "" && s.primary != "" then s.primary else requested;
    if target == "" then WithFallback(s, v, env)
    else if target !in s.providers then Report(v, NotFound(target), [])
    else
      var (view, mark) := VisitIn(v, target, env(0));
      match mark
      case Called(reply) => Report(view, ReplyResult(reply), [Attempt(0, target, reply)])
      case Skipped => Report(view, Unavailable(target), [])
  }

  // ---- The trace of the loops ----

  /** The calls of a run belong to turns of the plan, in order, each to the provider whose turn
      it is and with the reply the surroundings gave; none but the last one could end the
      loops. */
  ghost predicate GoodTrace(s: Settings, plan: seq<string>, env: nat -> Slot, k: nat, trace: seq<Attempt>) {
    && (forall i :: 0 <= i < |trace| ==>
          && trace[i].turn < k && trace[i].turn < |plan|
          && trace[i].provider == plan[trace[i].turn]
          && trace[i].reply == env(trace[i].turn).reply)
    && (forall i, j :: 0 <= i < j < |trace| ==> trace[i].turn < trace[j].turn)
    && (forall i :: 0 <= i < |trace| - 1 ==> !Stops(s, Called(trace[i].reply), env(trace[i].turn)))
  }

  /** The state after `k` turns that did not end the loops. */
  ghost predicate GoodCarry(s: Settings, plan: seq<string>, env: nat -> Slot, k: nat, c: Carry) {
    && GoodTrace(s, plan, env, k, c.trace)
    && |c.trace| <= k
    && c.lastError == (if c.trace == [] then None else Some(c.trace[|c.trace| - 1].reply))
    && (c.trace != [] ==>
          var a := c.trace[|c.trace| - 1]; !Stops(s, Called(a.reply), env(a.turn)))
  }

  /** How the loops end, in terms of the last call. */
  ghost predicate GoodReport(s: Settings, plan: seq<string>, env: nat -> Slot, r: Report) {
    && GoodTrace(s, plan, env, |plan|, r.trace)
    && |r.trace| <= |plan|
    && if r.trace == [] then r.result == Unavailable("manager")
       else
         var a := r.trace[|r.trace| - 1];
         r.result == if !Stops(s, Called(a.reply), env(a.turn)) then Failed(a.reply)
                     else if a.reply.Answer? || !s.fallbackEnabled then ReplyResult(a.reply)
                     else Cancelled
  }

  lemma AdvanceKeepsGood(s: Settings, plan: seq<string>, env: nat -> Slot, k: nat, c: Carry)
    requires k < |plan| && plan[k] in c.view && GoodCarry(s, plan, env, k, c)
    ensures var (c', mark) := Advance(c, k, plan[k], env(k));
      if Stops(s, mark, env(k)) then GoodReport(s, plan, env, StopReport(s, c', mark.reply))
      else GoodCarry(s, plan, env, k + 1, c')
  {
    var (c', mark) := Advance(c, k, plan[k], env(k));
    if mark.Called? {
      var a := Attempt(k, plan[k], mark.reply);
      GoodTraceSnoc(s, plan, env, k, c, a);
      assert c'.trace[|c'.trace| - 1] == a;
    }
  }

  lemma GoodTraceSnoc(s: Settings, plan: seq<string>, env: nat -> Slot, k: nat, c: Carry, a: Attempt)
    requires k < |plan| && GoodCarry(s, plan, env, k, c)
    requires a.turn == k && a.provider == plan[k] && a.reply == env(k).reply
    ensures GoodTrace(s, plan, env, k + 1, c.trace + [a])
    ensures GoodTrace(s, plan, env, |plan|, c.trace + [a])
  {
    var n := |c.trace|;
    assert forall i :: 0 <= i < n ==> (c.trace + [a])[i] == c.trace[i];
  }

  lemma EndIsGood(s: Settings, plan: seq<string>, env: nat -> Slot, c: Carry)
    requires GoodCarry(s, plan, env, |plan|, c)
    ensures GoodReport(s, plan, env, EndReport(c))
  {
  }

  lemma {:induction false} LoopGivesGoodReport(s: Settings, plan: seq<string>, env: nat -> Slot,
                                               k: nat, todo: seq<string>, c: Carry)
    requires k + |todo| == |plan| && forall i :: 0 <= i < |todo| ==> todo[i] == plan[k + i]
    requires Serves(todo, c.view) && GoodCarry(s, plan, env, k, c)
    ensures GoodReport(s, plan, env, LoopFrom(s, env, k, todo, c))
    decreases |todo|
  {
    if todo == [] {
      EndIsGood(s, plan, env, c);
    } else {
      assert plan[k] == todo[0];
      AdvanceKeepsGood(s, plan, env, k, c);
      var (c', mark) := Advance(c, k, todo[0], env(k));
      if !Stops(s, mark, env(k)) {
        LoopGivesGoodReport(s, plan, env, k + 1, todo[1..], c');
      }
    }
  }

  lemma FallbackGivesGoodReport(s: Settings, v: Snapshot, env: nat -> Slot)
    requires Serves(s.providers, v)
    ensures GoodReport(s, Plan(s), env, Fallback(s, v, env))
  {
    PlanIsServed(s.providers, s.maxRetries, v);
    LoopGivesGoodReport(s, Plan(s), env, 0, Plan(s), Carry(v, [], None));
  }

  /** A failure is followed by a wait, unless it was declared not retryable, and the context ends
      during that wait. */
  predicate CancelledAfter(s: Settings, reply: Reply, slot: Slot) {
    && slot.cancelled && s.fallbackDelay > 0
    && (reply.OtherError? || (reply.Refusal? && reply.retryable))
  }

  /** With fallback enabled: at most maxRetries times the number of providers calls are made,
      each round in the order of the providers. All but the last fail and are not followed by a
      cancellation. An answer is returned; a failure is the error, unless the context was
      cancelled during the wait after it; and nobody was available if nobody was called. */
  lemma FallbackMeaning(s: Settings, v: Snapshot, env: nat -> Slot)
    requires Serves(s.providers, v) && s.fallbackEnabled
    ensures var r := Fallback(s, v, env); var n := |r.trace|;
      && n <= Max(0, s.maxRetries) * |s.providers|
      && (forall i :: 0 <= i < n ==>
            s.providers != [] && r.trace[i].provider == s.providers[r.trace[i].turn % |s.providers|])
      && (forall i, j :: 0 <= i < j < n ==> r.trace[i].turn < r.trace[j].turn)
      && (forall i :: 0 <= i < n ==> r.trace[i].reply == env(r.trace[i].turn).reply)
      && (forall i :: 0 <= i < n - 1 ==>
            !r.trace[i].reply.Answer? && !CancelledAfter(s, r.trace[i].reply, env(r.trace[i].turn)))
      && (r.result.Answered? <==> n > 0 && r.trace[n - 1].reply.Answer?)
      && (n > 0 && r.result != Cancelled ==> r.result == ReplyResult(r.trace[n - 1].reply))
      && (r.result == Cancelled <==> n > 0 && CancelledAfter(s, r.trace[n - 1].reply, env(r.trace[n - 1].turn)))
      && (n == 0 ==> r.result == Unavailable("manager"))
  {
    FallbackGivesGoodReport(s, v, env);
    var r, rounds := Fallback(s, v, env), Max(0, s.maxRetries);
    assert Plan(s) == Repeat(s.providers, rounds);
    RepeatLength(s.providers, rounds);
    forall i | 0 <= i < |r.trace|
      ensures s.providers != [] && r.trace[i].provider == s.providers[r.trace[i].turn % |s.providers|]
    {
      RepeatIndex(s.providers, rounds, r.trace[i].turn);
    }
  }

  // ---- Which turns are skipped, and how many are taken ----

  /** A provider is skipped for cause: its breaker is open and has not cooled down, or it
      reports itself unavailable. A skipped turn changes no statistics, but it can leave an open
      breaker half-open. */
  lemma SkippedForCause(c: Carry, k: nat, name: string, slot: Slot)
    requires name in c.view
    ensures var circuit := c.view[name].circuit; var (c', mark) := Advance(c, k, name, slot);
      && (mark.Skipped? <==> (circuit.state.CircuitOpen? && slot.gate <= circuit.lastFailure + COOLDOWN) || !slot.up)
      && (mark.Skipped? ==>
            && c'.trace == c.trace && c'.lastError == c.lastError
            && c'.view == c.view[name := c.view[name].(circuit := c'.view[name].circuit)]
            && c'.view[name].circuit
               == if circuit.state.CircuitOpen? && slot.gate > circuit.lastFailure + COOLDOWN
                  then circuit.(state := CircuitHalfOpen) else circuit)
  {
  }

  /** All turns of the plan, without looking at any reply. */
  function TakeAll(env: nat -> Slot, k: nat, todo: seq<string>, c: Carry): Carry
    requires Serves(todo, c.view)
    decreases |todo|
  {
    if todo == [] then c else TakeAll(env, k + 1, todo[1..], Advance(c, k, todo[0], env(k)).0)
  }

  /** Nothing but an answer or a cancellation keeps the loops from going through the whole
      plan, all providers in all rounds. */
  lemma {:induction false} LoopTakesAllTurns(s: Settings, env: nat -> Slot, k: nat, todo: seq<string>, c: Carry)
    requires Serves(todo, c.view) && s.fallbackEnabled
    ensures var r := LoopFrom(s, env, k, todo, c);
      r.result.Answered? || r.result == Cancelled || r == EndReport(TakeAll(env, k, todo, c))
    decreases |todo|
  {
    if todo == [] {
    } else {
      var (c', mark) := Advance(c, k, todo[0], env(k));
      if !Stops(s, mark, env(k)) {
        LoopTakesAllTurns(s, env, k + 1, todo[1..], c');
      }
    }
  }

  /** The loops take the first `m` turns of the plan, skipping and calling as they go, and stop
      before its end only after an answer or a cancellation (or any reply without fallback). */
  lemma {:induction false} LoopTakesPrefix(s: Settings, env: nat -> Slot, k: nat, todo: seq<string>, c: Carry)
      returns (m: nat)
    requires Serves(todo, c.view)
    ensures m <= |todo| && Serves(todo[..m], c.view)
    ensures var r, t := LoopFrom(s, env, k, todo, c), TakeAll(env, k, todo[..m], c);
      && r.view == t.view && r.trace == t.trace
      && (m < |todo| ==>
            && m > 0 && t.trace != []
            && var a := t.trace[|t.trace| - 1];
               a.turn == k + m - 1
               && (!s.fallbackEnabled || a.reply.Answer? || CancelledAfter(s, a.reply, env(a.turn))))
    decreases |todo|
  {
    if todo == [] {
      m := 0;
    } else {
      var (c', mark) := Advance(c, k, todo[0], env(k));
      if Stops(s, mark, env(k)) {
        m := 1;
        assert todo[..1] == [todo[0]] && [todo[0]][1..] == [];
        assert TakeAll(env, k, [todo[0]], c) == c';
      } else {
        var n := LoopTakesPrefix(s, env, k + 1, todo[1..], c');
        m := n + 1;
        TakeAllUnfold(env, k, todo, m, c);
      }
    }
  }

  lemma TakeAllUnfold(env: nat -> Slot, k: nat, todo: seq<string>, m: nat, c: Carry)
    requires Serves(todo, c.view) && 0 < m <= |todo|
    ensures Serves(todo[..m], c.view) && Serves(todo[1..][..m - 1], c.view)
    ensures TakeAll(env, k, todo[..m], c)
            == TakeAll(env, k + 1, todo[1..][..m - 1], Advance(c, k, todo[0], env(k)).0)
  {
    assert todo[..m][0] == todo[0] && todo[..m][1..] == todo[1..][..m - 1];
  }

  // ---- Without fallback ----

  /** The breaker lets a request through at the instant `gate`. */
  predicate Passable(c: Circuit, gate: int) {
    !(c.state.CircuitOpen? && gate <= c.lastFailure + COOLDOWN)
  }

  /** What skipped turns can do to the breakers: whoever was let through still is. */
  ghost predicate Loosened(v: Snapshot, w: Snapshot) {
    && w.Keys == v.Keys
    && forall name :: name in v ==>
         w[name].circuit == v[name].circuit || w[name].circuit.state.CircuitHalfOpen?
  }

  /** The provider of turn `j` is ready from the beginning. */
  predicate Ready(v: Snapshot, name: string, slot: Slot)
    requires name in v
  {
    slot.up && Passable(v[name].circuit, slot.gate)
  }

  /** The turns `todo`, from number `k` on, call one provider that is up, and none before it was
      ready; its reply is the result. Nobody is called only if nobody was ready. */
  ghost predicate CallsFirstReady(v: Snapshot, env: nat -> Slot, k: nat, todo: seq<string>, r: Report)
    requires Serves(todo, v)
  {
    if r.trace == [] then
      r.result == Unavailable("manager") && NoneReady(v, env, k, todo, |todo|)
    else
      var a := r.trace[0];
      && |r.trace| == 1 && k <= a.turn < k + |todo|
      && a.provider == todo[a.turn - k] && a.reply == env(a.turn).reply && env(a.turn).up
      && r.result == ReplyResult(a.reply)
      && NoneReady(v, env, k, todo, a.turn - k)
  }

  ghost predicate NoneReady(v: Snapshot, env: nat -> Slot, k: nat, todo: seq<string>, n: nat)
    requires Serves(todo, v) && n <= |todo|
  {
    forall j :: 0 <= j < n ==> !Ready(v, todo[j], env(k + j))
  }

  lemma NoneReadyShift(v: Snapshot, env: nat -> Slot, k: nat, todo: seq<string>, n: nat)
    requires Serves(todo, v) && 0 < n <= |todo| && !Ready(v, todo[0], env(k))
    requires Serves(todo[1..], v) && NoneReady(v, env, k + 1, todo[1..], n - 1)
    ensures NoneReady(v, env, k, todo, n)
  {
    forall j | 0 <= j < n
      ensures !Ready(v, todo[j], env(k + j))
    {
      if j > 0 {
        assert todo[j] == todo[1..][j - 1] && !Ready(v, todo[1..][j - 1], env(k + 1 + (j - 1)));
      }
    }
  }

  lemma {:induction false} OnlyFirstIsCalled(s: Settings, v: Snapshot, env: nat -> Slot, k: nat, todo: seq<string>,
                                             c: Carry)
    requires !s.fallbackEnabled && Loosened(v, c.view) && Serves(todo, v) && c.trace == [] && c.lastError == None
    ensures CallsFirstReady(v, env, k, todo, LoopFrom(s, env, k, todo, c))
    decreases |todo|
  {
    if todo == [] {
    } else {
      var (c', mark) := Advance(c, k, todo[0], env(k));
      if mark.Skipped? {
        OnlyFirstIsCalled(s, v, env, k + 1, todo[1..], c');
        var r := LoopFrom(s, env, k + 1, todo[1..], c');
        NoneReadyShift(v, env, k, todo, if r.trace == [] then |todo| else r.trace[0].turn - k);
      }
    }
  }

  /** Without fallback, and without a provider named, the first ready provider is called. */
  lemma FirstReadyIsCalled(s: Settings, v: Snapshot, env: nat -> Slot)
    requires Serves(s.providers, v) && !s.fallbackEnabled && s.primary == ""
    ensures CallsFirstReady(v, env, 0, s.providers, ChatSpec(s, v, "", env))
  {
    var c := Carry(v, [], None);
    assert ChatSpec(s, v, "", env) == LoopFrom(s, env, 0, s.providers, c);
    OnlyFirstIsCalled(s, v, env, 0, s.providers, c);
  }

  // ---- No fallback for those who name a provider ----

  /** With a provider named, nobody else is called or affected: a provider that is not
      registered is not found, one that is skipped is unavailable, and a reply is returned as
      it is. */
  lemma NamedProviderOnly(s: Settings, v: Snapshot, requested: string, env: nat -> Slot)
    requires Serves(s.providers, v) && (requested != "" || s.primary != "")
    ensures var target := if requested != "" then requested else s.primary;
      var r := ChatSpec(s, v, requested, env);
      && (r.result == NotFound(target) <==> target !in s.providers)
      && (forall name :: name in v && name != target ==> name in r.view && r.view[name] == v[name])
      && (r.trace == [] ==> r.result in {NotFound(target), Unavailable(target)})
      && (r.trace != [] ==> r.trace == [Attempt(0, target, env(0).reply)] && r.result == ReplyResult(env(0).reply))
  {
  }

  /** The named provider is called exactly when it is registered, up, and not in a cool-down,
      however many failures are counted. */
  lemma NamedProviderCalledIff(s: Settings, v: Snapshot, requested: string, env: nat -> Slot)
    requires Serves(s.providers, v) && (requested != "" || s.primary != "")
    ensures var target := if requested != "" then requested else s.primary;
      ChatSpec(s, v, requested, env).trace != []
      <==> target in s.providers && Ready(v, target, env(0))
  {
  }

  /** The path around the gate calls the primary provider whatever its breaker says. No request
      gets there: it needs a primary provider, and whoever has one was sent to it through the
      gate before. */
  lemma UngatedPath(s: Settings, v: Snapshot, requested: string, env: nat -> Slot)
    requires Serves(s.providers, v)
    ensures !s.fallbackEnabled && s.primary != "" && s.primary in s.providers ==>
              var r := WithFallback(s, v, env);
              && r.trace == [Attempt(0, s.primary, env(0).reply)] && r.result == ReplyResult(env(0).reply)
              && r.view == v[s.primary := Try(v[s.primary], env(0))]
    ensures requested == "" && s.primary == "" ==> ChatSpec(s, v, requested, env) == Fallback(s, v, env)
  {
  }

  /** Whether some state and some surroundings make a second provider call happen. */
  ghost predicate FallbackPossible(s: Settings, requested: string) {
    exists v: Snapshot, env: nat -> Slot :: Serves(s.providers, v) && |ChatSpec(s, v, requested, env).trace| >= 2
  }

  /** Falling back to another provider can only happen when neither the options nor the
      settings name one: a configured primary provider is the only one ever called. */
  lemma FallbackPossibleIff(s: Settings, requested: string)
    ensures FallbackPossible(s, requested)
            <==> requested == "" && s.primary == "" && s.fallbackEnabled && Max(0, s.maxRetries) * |s.providers| >= 2
  {
    RepeatLength(s.providers, Max(0, s.maxRetries));
    assert s.fallbackEnabled ==> Plan(s) == Repeat(s.providers, Max(0, s.maxRetries));
    if requested == "" && s.primary == "" && s.fallbackEnabled && |Plan(s)| >= 2 {
      FallbackWitness(s);
    } else {
      forall v: Snapshot, env: nat -> Slot | Serves(s.providers, v)
        ensures |ChatSpec(s, v, requested, env).trace| <= 1
      {
        FallbackGivesGoodReport(s, v, env);
        var trace := Fallback(s, v, env).trace;
        assert |trace| >= 2 ==> !Stops(s, Called(trace[0].reply), env(trace[0].turn));
      }
    }
  }

  /** Two failures in a row, from fresh providers that are all up. */
  lemma FallbackWitness(s: Settings)
    requires s.primary == "" && s.fallbackEnabled && |Plan(s)| >= 2
    ensures FallbackPossible(s, "")
  {
    var v: Snapshot := map name | name in s.providers :: NEW_PROVIDER;
    var env := (k: nat) => Slot(0, true, 0, 0, OtherError("down"), 0, false);
    PlanIsServed(s.providers, s.maxRetries, v);
    var plan := Plan(s);
    RepeatIndex(s.providers, s.maxRetries, 0);
    RepeatIndex(s.providers, s.maxRetries, 1);
    var c0 := Carry(v, [], None);
    var (c1, mark1) := Advance(c0, 0, plan[0], env(0));
    assert mark1 == Called(OtherError("down")) && !c1.view[plan[1]].circuit.state.CircuitOpen?;
    var (c2, mark2) := Advance(c1, 1, plan[1], env(1));
    assert mark2 == Called(OtherError("down")) && |c2.trace| == 2;
    assert plan[1..][0] == plan[1] && plan[1..][1..] == plan[2..];
    assert Fallback(s, v, env) == LoopFrom(s, env, 1, plan[1..], c1) == LoopFrom(s, env, 2, plan[2..], c2);
    TraceOnlyGrows(s, env, 2, plan[2..], c2);
    assert Serves(s.providers, v) && |ChatSpec(s, v, "", env).trace| >= 2;
  }

  lemma {:induction false} TraceOnlyGrows(s: Settings, env: nat -> Slot, k: nat, todo: seq<string>, c: Carry)
    requires Serves(todo, c.view)
    ensures |c.trace| <= |LoopFrom(s, env, k, todo, c).trace|
    decreases |todo|
  {
    if todo == [] {
    } else {
      var (c', mark) := Advance(c, k, todo[0], env(k));
      if !Stops(s, mark, env(k)) {
        TraceOnlyGrows(s, env, k + 1, todo[1..], c');
      }
    }
  }

  // ---- The breaker limits what retries can do ----

  function CallsTo(trace: seq<Attempt>, name: string): nat {
    if trace == [] then 0
    else CallsTo(trace[..|trace| - 1], name) + (if trace[|trace| - 1].provider == name then 1 else 0)
  }

  lemma CallsToSnoc(trace: seq<Attempt>, a: Attempt, name: string)
    ensures CallsTo(trace + [a], name) == CallsTo(trace, name) + (if a.provider == name then 1 else 0)
  {
    assert (trace + [a])[..|trace|] == trace;
  }

  /** Calls a provider can get in a minute of failures. */
  function CallCap(c: Circuit): nat {
    if c.failures < THRESHOLD then Max(1, THRESHOLD - c.failures) else 1
  }

  /** The state of a breaker after `calls` failures since it was `c0` at instant `from`. */
  predicate Capped(c0: Circuit, from: int, c: Circuit, calls: nat) {
    && Inv(c)
    && calls <= CallCap(c0)
    && (calls == CallCap(c0) ==> c.state.CircuitOpen? && c.lastFailure >= from)
    && (calls < CallCap(c0) ==>
          if c0.state.CircuitClosed? then c.state.CircuitClosed? && c.failures == c0.failures + calls
          else !c.state.CircuitClosed?)
  }

  lemma CappedStep(c0: Circuit, from: int, p: Provider, calls: nat, slot: Slot)
    requires Inv(c0) && Capped(c0, from, p.circuit, calls)
    requires slot.gate <= from + COOLDOWN && slot.recorded >= from
    ensures var (p', mark) := Visit(p, slot);
      && (mark.Called? ==> calls < CallCap(c0))
      && (mark.Called? && !mark.reply.Answer? ==> Capped(c0, from, p'.circuit, calls + 1))
      && (mark.Skipped? ==> Capped(c0, from, p'.circuit, calls))
  {
  }

  ghost predicate WithinCooldown(env: nat -> Slot, from: int, turns: nat) {
    forall k: nat :: k < turns ==> env(k).gate <= from + COOLDOWN && env(k).recorded >= from
  }

  lemma CappedAdvance(c0: Circuit, from: int, c: Carry, k: nat, provider: string, slot: Slot, name: string)
    requires provider in c.view && name in c.view
    requires Inv(c0) && Capped(c0, from, c.view[name].circuit, CallsTo(c.trace, name))
    requires slot.gate <= from + COOLDOWN && slot.recorded >= from
    ensures var (c', mark) := Advance(c, k, provider, slot);
      && CallsTo(c'.trace, name) <= CallCap(c0)
      && (!(mark.Called? && mark.reply.Answer?) ==> Capped(c0, from, c'.view[name].circuit, CallsTo(c'.trace, name)))
  {
    CappedStep(c0, from, c.view[name], CallsTo(c.trace, name), slot);
    var (c', mark) := Advance(c, k, provider, slot);
    if mark.Called? {
      CallsToSnoc(c.trace, Attempt(k, provider, mark.reply), name);
    }
  }

  lemma {:induction false} LoopIsCapped(s: Settings, env: nat -> Slot, k: nat, todo: seq<string>, c: Carry,
                                        name: string, c0: Circuit, from: int, turns: nat)
    requires s.fallbackEnabled && Serves(todo, c.view) && name in c.view
    requires k + |todo| <= turns && WithinCooldown(env, from, turns)
    requires Inv(c0) && Capped(c0, from, c.view[name].circuit, CallsTo(c.trace, name))
    ensures CallsTo(LoopFrom(s, env, k, todo, c).trace, name) <= CallCap(c0)
    decreases |todo|
  {
    if todo == [] {
    } else {
      CappedAdvance(c0, from, c, k, todo[0], env(k), name);
      var (c', mark) := Advance(c, k, todo[0], env(k));
      if !Stops(s, mark, env(k)) {
        LoopIsCapped(s, env, k + 1, todo[1..], c', name, c0, from, turns);
      }
    }
  }

  /** However many retries are configured, a fallback that takes no longer than the cool-down
      calls each provider at most as often as failures were missing to open its breaker, and
      once if it was open already. */
  lemma RetriesAreCapped(s: Settings, v: Snapshot, env: nat -> Slot, from: int, name: string)
    requires Serves(s.providers, v) && s.fallbackEnabled && name in v && Inv(v[name].circuit)
    requires WithinCooldown(env, from, Max(0, s.maxRetries) * |s.providers|)
    ensures CallsTo(Fallback(s, v, env).trace, name) <= CallCap(v[name].circuit)
  {
    PlanIsServed(s.providers, s.maxRetries, v);
    RepeatLength(s.providers, Max(0, s.maxRetries));
    assert Plan(s) == Repeat(s.providers, Max(0, s.maxRetries));
    LoopIsCapped(s, env, 0, Plan(s), Carry(v, [], None), name, v[name].circuit, from, |Plan(s)|);
  }

  // ---- Statistics ----

  function CountResults(history: seq<Done>, success: bool): nat {
    if history == [] then 0
    else CountResults(history[..|history| - 1], success) + (if history[|history| - 1].success == success then 1 else 0)
  }

  function TimeSpent(history: seq<Done>): int {
    if history == [] then 0 else TimeSpent(history[..|history| - 1]) + history[|history| - 1].took
  }

  function FailuresSinceSuccess(history: seq<Done>): nat {
    if history == [] || history[|history| - 1].success then 0
    else 1 + FailuresSinceSuccess(history[..|history| - 1])
  }

  /** Every request is an error or a success, and the breaker is closed exactly while fewer
      than five failures followed the last success. */
  predicate Consistent(p: Provider) {
    && p.errors == CountResults(p.history, false)
    && p.requests == p.errors + CountResults(p.history, true) == |p.history|
    && p.busy == TimeSpent(p.history)
    && p.circuit.failures == FailuresSinceSuccess(p.history)
    && (p.circuit.state.CircuitClosed? <==> FailuresSinceSuccess(p.history) < THRESHOLD)
  }

  ghost predicate AllConsistent(v: Snapshot) {
    forall name :: name in v ==> Consistent(v[name])
  }

  /** The calls of a trace to one provider, with their durations. */
  function CallsOf(trace: seq<Attempt>, env: nat -> Slot, name: string): seq<Done> {
    if trace == [] then []
    else
      var before, a := trace[..|trace| - 1], trace[|trace| - 1];
      if a.provider == name
      then CallsOf(before, env, name) + [Done(a.reply.Answer?, env(a.turn).done - env(a.turn).sent)]
      else CallsOf(before, env, name)
  }

  lemma CallsOfSnoc(trace: seq<Attempt>, a: Attempt, env: nat -> Slot, name: string)
    ensures CallsOf(trace + [a], env, name)
            == if a.provider == name
               then CallsOf(trace, env, name) + [Done(a.reply.Answer?, env(a.turn).done - env(a.turn).sent)]
               else CallsOf(trace, env, name)
  {
    assert (trace + [a])[..|trace|] == trace;
  }

  lemma CallsOfOne(a: Attempt, env: nat -> Slot, name: string)
    ensures CallsOf([a], env, name)
            == if a.provider == name then [Done(a.reply.Answer?, env(a.turn).done - env(a.turn).sent)] else []
  {
    CallsOfSnoc([], a, env, name);
    assert [] + [a] == [a];
  }

  lemma VisitRecords(v: Snapshot, provider: string, slot: Slot, name: string)
    requires provider in v && name in v
    ensures var (w, mark) := VisitIn(v, provider, slot);
      && name in w
      && (mark.Called? ==> mark.reply == slot.reply)
      && w[name].history == if mark.Called? && provider == name
                            then v[name].history + [Done(slot.reply.Answer?, slot.done - slot.sent)]
                            else v[name].history
  {
  }

  lemma AdvanceRecords(env: nat -> Slot, k: nat, provider: string, c: Carry, name: string, past: seq<Done>)
    requires provider in c.view && name in c.view
    requires c.view[name].history == past + CallsOf(c.trace, env, name)
    ensures var c' := Advance(c, k, provider, env(k)).0;
      name in c'.view && c'.view[name].history == past + CallsOf(c'.trace, env, name)
  {
    VisitRecords(c.view, provider, env(k), name);
    CallsOfSnoc(c.trace, Attempt(k, provider, env(k).reply), env, name);
  }

  lemma {:induction false} LoopRecordsTrace(s: Settings, env: nat -> Slot, k: nat, todo: seq<string>, c: Carry,
                                            name: string, past: seq<Done>)
    requires Serves(todo, c.view) && name in c.view
    requires c.view[name].history == past + CallsOf(c.trace, env, name)
    ensures var r := LoopFrom(s, env, k, todo, c);
      name in r.view && r.view[name].history == past + CallsOf(r.trace, env, name)
    decreases |todo|
  {
    if todo == [] {
    } else {
      AdvanceRecords(env, k, todo[0], c, name, past);
      var (c', mark) := Advance(c, k, todo[0], env(k));
      if !Stops(s, mark, env(k)) {
        LoopRecordsTrace(s, env, k + 1, todo[1..], c', name, past);
      }
    }
  }

  lemma FallbackRecordsTrace(s: Settings, v: Snapshot, env: nat -> Slot, name: string)
    requires Serves(s.providers, v) && name in v
    ensures var r := Fallback(s, v, env);
      name in r.view && r.view[name].history == v[name].history + CallsOf(r.trace, env, name)
  {
    PlanIsServed(s.providers, s.maxRetries, v);
    LoopRecordsTrace(s, env, 0, Plan(s), Carry(v, [], None), name, v[name].history);
  }

  lemma NamedRecordsTrace(s: Settings, v: Snapshot, requested: string, env: nat -> Slot, name: string)
    requires Serves(s.providers, v) && name in v && (requested != "" || s.primary != "")
    ensures var r := ChatSpec(s, v, requested, env);
      name in r.view && r.view[name].history == v[name].history + CallsOf(r.trace, env, name)
  {
    var target := if requested != "" then requested else s.primary;
    if target in s.providers {
      VisitRecords(v, target, env(0), name);
    }
    CallsOfOne(Attempt(0, target, env(0).reply), env, name);
  }

  /** A request adds to the history of every provider exactly the calls it made to it, each with
      its outcome and the time between sending and reply. */
  lemma ChatRecordsTrace(s: Settings, v: Snapshot, requested: string, env: nat -> Slot, name: string)
    requires Serves(s.providers, v) && name in v
    ensures var r := ChatSpec(s, v, requested, env);
      name in r.view && r.view[name].history == v[name].history + CallsOf(r.trace, env, name)
  {
    if requested == "" && s.primary == "" {
      FallbackRecordsTrace(s, v, env, name);
    } else {
      NamedRecordsTrace(s, v, requested, env, name);
    }
  }

  lemma TryKeepsConsistent(p: Provider, slot: Slot)
    requires Consistent(p)
    ensures Consistent(Try(p, slot))
  {
    var history := Try(p, slot).history;
    assert history[..|history| - 1] == p.history;
  }

  lemma VisitKeepsConsistent(p: Provider, slot: Slot)
    requires Consistent(p)
    ensures Consistent(CheckAvailable(p, slot).0) && Consistent(Visit(p, slot).0)
  {
    TryKeepsConsistent(CheckAvailable(p, slot).0, slot);
  }

  lemma {:induction false} LoopKeepsConsistent(s: Settings, env: nat -> Slot, k: nat, todo: seq<string>, c: Carry)
    requires Serves(todo, c.view) && AllConsistent(c.view)
    ensures AllConsistent(LoopFrom(s, env, k, todo, c).view)
    decreases |todo|
  {
    if todo == [] {
    } else {
      VisitKeepsConsistent(c.view[todo[0]], env(k));
      var (c', mark) := Advance(c, k, todo[0], env(k));
      assert AllConsistent(c'.view);
      if !Stops(s, mark, env(k)) {
        LoopKeepsConsistent(s, env, k + 1, todo[1..], c');
      }
    }
  }

  lemma FallbackKeepsConsistent(s: Settings, v: Snapshot, env: nat -> Slot)
    requires Serves(s.providers, v) && AllConsistent(v)
    ensures AllConsistent(Fallback(s, v, env).view)
  {
    PlanIsServed(s.providers, s.maxRetries, v);
    LoopKeepsConsistent(s, env, 0, Plan(s), Carry(v, [], None));
  }

  lemma {:induction false} LoopKeepsProviders(s: Settings, env: nat -> Slot, k: nat, todo: seq<string>, c: Carry)
    requires Serves(todo, c.view)
    ensures LoopFrom(s, env, k, todo, c).view.Keys == c.view.Keys
    decreases |todo|
  {
    if todo == [] {
    } else {
      var (c', mark) := Advance(c, k, todo[0], env(k));
      if !Stops(s, mark, env(k)) {
        LoopKeepsProviders(s, env, k + 1, todo[1..], c');
      }
    }
  }

  /** No request adds or removes a provider. */
  lemma ChatKeepsProviders(s: Settings, v: Snapshot, requested: string, env: nat -> Slot)
    requires Serves(s.providers, v)
    ensures ChatSpec(s, v, requested, env).view.Keys == v.Keys
  {
    PlanIsServed(s.providers, s.maxRetries, v);
    LoopKeepsProviders(s, env, 0, Plan(s), Carry(v, [], None));
  }

  /** One request keeps the statistics of every provider in agreement with its history. */
  lemma ChatKeepsConsistent(s: Settings, v: Snapshot, requested: string, env: nat -> Slot)
    requires Serves(s.providers, v) && AllConsistent(v)
    ensures AllConsistent(ChatSpec(s, v, requested, env).view)
  {
    var target := if requested == "" && s.primary != "" then s.primary else requested;
    if target == "" {
      FallbackKeepsConsistent(s, v, env);
    } else if target in s.providers {
      VisitKeepsConsistent(v[target], env(0));
    }
  }

  /** One request to the manager and its surroundings. */
  datatype Request = Request(requested: string, env: nat -> Slot)

  function NewProviders(s: Settings): Snapshot {
    map name | name in s.providers :: NEW_PROVIDER
  }

  /** All providers after a run of requests to a new manager. */
  function AfterRequests(s: Settings, requests: seq<Request>): (v: Snapshot)
    ensures v.Keys == NewProviders(s).Keys
  {
    if requests == [] then NewProviders(s)
    else
      var before, last := AfterRequests(s, requests[..|requests| - 1]), requests[|requests| - 1];
      ChatKeepsProviders(s, before, last.requested, last.env);
      ChatSpec(s, before, last.requested, last.env).view
  }

  /** Over any run of requests to a new manager the statistics of every provider agree with its
      history: requests are errors plus successes, and the breaker is closed exactly while fewer
      than five failures followed the last success. */
  lemma {:induction false} StatisticsOverRuns(s: Settings, requests: seq<Request>)
    ensures AllConsistent(AfterRequests(s, requests))
  {
    if requests == [] {
    } else {
      var before, last := requests[..|requests| - 1], requests[|requests| - 1];
      StatisticsOverRuns(s, before);
      ChatKeepsConsistent(s, AfterRequests(s, before), last.requested, last.env);
    }
  }

  // ---- Failures in a row over whole runs ----

  /** Turns that the surroundings of one request provide for. */
  function Turns(s: Settings): nat {
    Max(1, |Plan(s)|)
  }

  /** The turns of one request, in order, with gates between `from` and `to`. */
  ghost predicate TurnsInOrder(s: Settings, env: nat -> Slot, from: int, to: int) {
    && (forall k: nat :: k < Turns(s) ==> from <= env(k).gate <= to && env(k).gate <= env(k).recorded)
    && (forall j: nat, k: nat :: j < k < Turns(s) ==> env(j).recorded <= env(k).gate)
  }

  /** When the last turn of a request is over. */
  function Over(s: Settings, env: nat -> Slot): int {
    env(Turns(s) - 1).recorded
  }

  /** When a run of requests that starts at `from` is over. */
  function AllOver(s: Settings, requests: seq<Request>, from: int): int {
    if requests == [] then from else Over(s, requests[|requests| - 1].env)
  }

  /** One request after the other, all gates between `from` and `to`. */
  ghost predicate OneByOne(s: Settings, requests: seq<Request>, from: int, to: int) {
    && from <= to
    && forall i :: 0 <= i < |requests| ==> TurnsInOrder(s, requests[i].env, AllOver(s, requests[..i], from), to)
  }

  ghost predicate AllPaced(from: int, to: int, clock: int, v: Snapshot) {
    forall name :: name in v ==> Paced(from, to, clock, v[name].circuit)
  }

  lemma VisitIsTurn(p: Provider, slot: Slot)
    ensures var turn := Turn(slot.gate, slot.gate, slot.up, slot.reply.Answer?, slot.recorded);
      && Visit(p, slot).0.circuit == ManagerTurn(p.circuit, turn).0
      && (Visit(p, slot).1.Called? <==> ManagerTurn(p.circuit, turn).1 && turn.called)
  {
  }

  lemma VisitInKeepsPaced(v: Snapshot, name: string, slot: Slot, from: int, to: int, clock: int)
    requires name in v && AllPaced(from, to, clock, v)
    requires from <= clock <= slot.gate <= to && slot.gate <= slot.recorded
    ensures AllPaced(from, to, slot.recorded, VisitIn(v, name, slot).0)
  {
    VisitIsTurn(v[name], slot);
    PacedTurn(from, to, clock, v[name].circuit,
              Turn(slot.gate, slot.gate, slot.up, slot.reply.Answer?, slot.recorded));
  }

  lemma {:induction false} LoopKeepsPaced(s: Settings, env: nat -> Slot, k: nat, todo: seq<string>, c: Carry,
                                          from: int, to: int, clock: int, start: int)
    requires Serves(todo, c.view) && k + |todo| <= Turns(s) && TurnsInOrder(s, env, start, to)
    requires from <= start <= clock <= Over(s, env) && forall j: nat :: k <= j < Turns(s) ==> clock <= env(j).gate
    requires AllPaced(from, to, clock, c.view)
    ensures AllPaced(from, to, Over(s, env), LoopFrom(s, env, k, todo, c).view)
    decreases |todo|
  {
    if todo == [] {
    } else {
      VisitInKeepsPaced(c.view, todo[0], env(k), from, to, clock);
      var (c', mark) := Advance(c, k, todo[0], env(k));
      assert k < Turns(s) - 1 ==> env(k).recorded <= env(Turns(s) - 1).gate;
      if !Stops(s, mark, env(k)) {
        LoopKeepsPaced(s, env, k + 1, todo[1..], c', from, to, env(k).recorded, start);
      }
    }
  }

  lemma ChatKeepsPaced(s: Settings, v: Snapshot, requested: string, env: nat -> Slot, from: int, to: int, clock: int)
    requires Serves(s.providers, v) && AllPaced(from, to, clock, v)
    requires from <= clock && TurnsInOrder(s, env, clock, to)
    ensures AllPaced(from, to, Over(s, env), ChatSpec(s, v, requested, env).view) && clock <= Over(s, env)
  {
    var target := if requested == "" && s.primary != "" then s.primary else requested;
    assert clock <= env(Turns(s) - 1).gate <= Over(s, env);
    if target == "" {
      PlanIsServed(s.providers, s.maxRetries, v);
      LoopKeepsPaced(s, env, 0, Plan(s), Carry(v, [], None), from, to, clock, clock);
    } else if target in s.providers {
      VisitInKeepsPaced(v, target, env(0), from, to, clock);
      assert Turns(s) > 1 ==> env(0).recorded <= env(Turns(s) - 1).gate;
    }
  }

  lemma OneByOneBefore(s: Settings, requests: seq<Request>, from: int, to: int)
    requires OneByOne(s, requests, from, to) && requests != []
    ensures var before, last := requests[..|requests| - 1], requests[|requests| - 1];
      OneByOne(s, before, from, to) && TurnsInOrder(s, last.env, AllOver(s, before, from), to)
  {
    var before := requests[..|requests| - 1];
    forall i | 0 <= i < |before|
      ensures TurnsInOrder(s, before[i].env, AllOver(s, before[..i], from), to)
    {
      assert before[..i] == requests[..i];
    }
  }

  lemma {:induction false} RunIsPaced(s: Settings, requests: seq<Request>, from: int, to: int)
    requires OneByOne(s, requests, from, to)
    ensures AllPaced(from, to, AllOver(s, requests, from), AfterRequests(s, requests))
    ensures from <= AllOver(s, requests, from)
  {
    if requests == [] {
    } else {
      var before, last := requests[..|requests| - 1], requests[|requests| - 1];
      OneByOneBefore(s, requests, from, to);
      RunIsPaced(s, before, from, to);
      ChatKeepsPaced(s, AfterRequests(s, before), last.requested, last.env, from, to, AllOver(s, before, from));
    }
  }

  /** Over any run of requests to a new manager, one after the other, with whatever settings,
      replies and times, no provider gets more calls in a row that fail than the breaker
      permits in that time. */
  lemma FailuresInARowBounded(s: Settings, requests: seq<Request>, from: int, to: int, name: string)
    requires OneByOne(s, requests, from, to) && name in s.providers
    ensures FailuresSinceSuccess(AfterRequests(s, requests)[name].history) <= MaxInARow(to - from)
  {
    RunIsPaced(s, requests, from, to);
    StatisticsOverRuns(s, requests);
    PacedBound(from, to, AllOver(s, requests, from), AfterRequests(s, requests)[name].circuit);
  }

  // ---- The object ----

  function CountOf(m: map<string, int>, name: string): int {
    if name in m then m[name] else 0
  }

  method MakeBreakers(names: seq<string>) returns (breakers: map<string, CircuitBreaker>)
    ensures breakers.Keys == set j | 0 <= j < |names| :: names[j]
    ensures forall n :: n in breakers ==> fresh(breakers[n]) && breakers[n].View() == FRESH
    ensures forall n, m :: n in breakers && m in breakers && n != m ==> breakers[n] != breakers[m]
  {
    breakers := map[];
    for i := 0 to |names|
      invariant breakers.Keys == set j | 0 <= j < i :: names[j]
      invariant forall n :: n in breakers ==> fresh(breakers[n]) && breakers[n].View() == FRESH
      invariant forall n, m :: n in breakers && m in breakers && n != m ==> breakers[n] != breakers[m]
    {
      var cb := new CircuitBreaker();
      breakers := breakers[names[i] := cb];
    }
  }

  lemma NextTurn(names: seq<string>, i: nat, rest: seq<string>)
    requires i < |names|
    ensures names[i..] + rest == [names[i]] + (names[i + 1..] + rest)
  {
  }

  class LLMManager {
    const settings: Settings
    const circuitBreaker: map<string, CircuitBreaker>
    var requestCount: map<string, int>
    var errorCount: map<string, int>
    var responseTime: map<string, int>
    /** The breakers and statistics put together provider by provider. */
    ghost var providers: Snapshot

    ghost predicate Known(names: seq<string>) {
      forall i :: 0 <= i < |names| ==> names[i] in circuitBreaker
    }

    /** Every provider has a breaker of its own. */
    ghost predicate Separate() {
      && (forall n, m :: n in circuitBreaker && m in circuitBreaker && n != m
            ==> circuitBreaker[n] != circuitBreaker[m])
      && Known(settings.providers)
    }

    ghost predicate Reflects(name: string, p: Provider)
      requires name in circuitBreaker
      reads this, circuitBreaker[name]
    {
      && p.circuit == circuitBreaker[name].View()
      && p.requests == CountOf(requestCount, name)
      && p.errors == CountOf(errorCount, name)
      && p.busy == CountOf(responseTime, name)
    }

    ghost predicate Valid()
      reads this, circuitBreaker.Values
    {
      && Separate()
      && providers.Keys == circuitBreaker.Keys
      && forall name :: name in circuitBreaker ==> Reflects(name, providers[name])
    }

    constructor (settings: Settings)
      ensures Valid() && this.settings == settings
      ensures providers.Keys == (set j | 0 <= j < |settings.providers| :: settings.providers[j])
      ensures forall name :: name in providers ==> providers[name] == NEW_PROVIDER
      ensures forall name :: name in circuitBreaker ==> fresh(circuitBreaker[name])
    {
      var breakers := MakeBreakers(settings.providers);
      this.settings := settings;
      circuitBreaker := breakers;
      requestCount, errorCount, responseTime := map[], map[], map[];
      providers := map name | name in breakers :: NEW_PROVIDER;
    }

    method IsProviderAvailable(name: string, slot: Slot) returns (available: bool)
      requires Valid() && name in circuitBreaker
      modifies `providers, circuitBreaker[name]
      ensures Valid()
      ensures providers == old(providers)[name := CheckAvailable(old(providers[name]), slot).0]
      ensures available == CheckAvailable(old(providers[name]), slot).1
    {
      providers := providers[name := CheckAvailable(providers[name], slot).0];
      var open := circuitBreaker[name].CheckGate(slot.gate);
      return open && slot.up;
    }

    method TryProvider(name: string, slot: Slot) returns (reply: Reply)
      requires Valid() && name in circuitBreaker
      modifies this, circuitBreaker[name]
      ensures Valid() && reply == slot.reply
      ensures providers == old(providers)[name := Try(old(providers[name]), slot)]
    {
      reply := slot.reply;
      CountRequest(name, slot.done - slot.sent, reply.Answer?);
      circuitBreaker[name].Record(reply.Answer?, slot.recorded);
      providers := providers[name := Try(providers[name], slot)];
      forall n | n in circuitBreaker
        ensures Reflects(n, providers[n])
      {
        assert old(Reflects(n, providers[n]));
      }
    }

    method CountRequest(name: string, duration: int, success: bool)
      modifies `requestCount, `errorCount, `responseTime
      ensures forall n :: CountOf(requestCount, n) == old(CountOf(requestCount, n)) + (if n == name then 1 else 0)
      ensures forall n :: CountOf(responseTime, n)
                          == old(CountOf(responseTime, n)) + (if n == name then duration else 0)
      ensures forall n :: CountOf(errorCount, n)
                          == old(CountOf(errorCount, n)) + (if n == name && !success then 1 else 0)
    {
      requestCount := requestCount[name := CountOf(requestCount, name) + 1];
      responseTime := responseTime[name := CountOf(responseTime, name) + duration];
      if !success {
        errorCount := errorCount[name := CountOf(errorCount, name) + 1];
      }
    }

    /** The gate, and the call if the gate is open. */
    method TakeTurn(name: string, slot: Slot) returns (mark: Mark)
      requires Valid() && name in circuitBreaker
      modifies this, circuitBreaker[name]
      ensures Valid()
      ensures providers == VisitIn(old(providers), name, slot).0 && mark == VisitIn(old(providers), name, slot).1
    {
      VisitInSteps(providers, name, slot);
      var available := IsProviderAvailable(name, slot);
      if !available {
        return Skipped;
      }
      var reply := TryProvider(name, slot);
      return Called(reply);
    }

    /** chatWithFallback and completeWithFallback. */
    method ChatWithFallback(env: nat -> Slot) returns (result: Result, ghost trace: seq<Attempt>)
      requires Valid()
      modifies this, circuitBreaker.Values
      ensures Valid() && Serves(settings.providers, old(providers))
      ensures Report(providers, result, trace) == WithFallback(settings, old(providers), env)
    {
      if settings.fallbackEnabled {
        result, trace := Rounds(env);
      } else if settings.primary != "" && settings.primary in settings.providers {
        var reply := TryProvider(settings.primary, env(0));
        return ReplyResult(reply), [Attempt(0, settings.primary, reply)];
      } else {
        result, trace := FirstAvailable(env);
      }
    }

    /** Without fallback: the first available provider gets the only call. */
    method FirstAvailable(env: nat -> Slot) returns (result: Result, ghost trace: seq<Attempt>)
      requires Valid() && !settings.fallbackEnabled
      modifies this, circuitBreaker.Values
      ensures Valid() && Serves(settings.providers, old(providers))
      ensures Report(providers, result, trace) == Fallback(settings, old(providers), env)
    {
      ghost var goal := Fallback(settings, providers, env);
      ghost var todo := settings.providers;
      var i := 0;
      while i < |settings.providers|
        invariant Valid() && 0 <= i <= |settings.providers| && todo == settings.providers[i..]
        invariant OnTheWay(settings, env, i, todo, Carry(providers, [], None), goal)
      {
        var provider := settings.providers[i];
        ghost var next := settings.providers[i + 1..];
        assert todo == [provider] + next;
        var mark := OnlyTurn(env, i, provider, next, goal);
        if mark.Called? {
          return ReplyResult(mark.reply), [Attempt(i, provider, mark.reply)];
        }
        todo, i := next, i + 1;
      }
      return Unavailable("manager"), [];
    }

    /** The body of that loop. */
    method OnlyTurn(env: nat -> Slot, turn: nat, provider: string, ghost todo: seq<string>, ghost goal: Report)
      returns (mark: Mark)
      requires Valid() && !settings.fallbackEnabled && provider in circuitBreaker
      requires OnTheWay(settings, env, turn, [provider] + todo, Carry(providers, [], None), goal)
      modifies this, circuitBreaker[provider]
      ensures Valid()
      ensures mark.Called? ==> Report(providers, ReplyResult(mark.reply), [Attempt(turn, provider, mark.reply)]) == goal
      ensures mark.Skipped? ==> OnTheWay(settings, env, turn + 1, todo, Carry(providers, [], None), goal)
    {
      LoopUnfold(settings, env, turn, provider, todo, Carry(providers, [], None));
      mark := TakeTurn(provider, env(turn));
    }

    /** With fallback: rounds over all providers until one answers. `turn` numbers the turns. */
    method Rounds(env: nat -> Slot) returns (result: Result, ghost trace: seq<Attempt>)
      requires Valid() && settings.fallbackEnabled
      modifies this, circuitBreaker.Values
      ensures Valid() && Serves(settings.providers, old(providers))
      ensures Report(providers, result, trace) == Fallback(settings, old(providers), env)
    {
      ghost var goal := Fallback(settings, providers, env);
      var lastError: Option<Reply> := None;
      trace := [];
      var turn: nat, retries := 0, 0;
      ghost var left := settings.maxRetries;
      PlanIsServed(settings.providers, settings.maxRetries, providers);
      while retries < settings.maxRetries
        invariant Valid() && left == settings.maxRetries - retries
        invariant OnTheWay(settings, env, turn, Repeat(settings.providers, left),
                           Carry(providers, trace, lastError), goal)
      {
        left := left - 1;
        ghost var rest := Repeat(settings.providers, left);
        var stopped;
        stopped, turn, lastError, trace := OneRound(env, turn, lastError, trace, rest, goal);
        if stopped.Some? {
          return stopped.value, trace;
        }
        retries := retries + 1;
      }
      match lastError {
        case Some(reply) => result := Failed(reply);
        case None => result := Unavailable("manager");
      }
    }

    /** The inner loop: one round over the providers, with the turns `rest` after it, on the way
        to the report `goal`. */
    method OneRound(env: nat -> Slot, turn0: nat, lastError0: Option<Reply>,
                    ghost trace0: seq<Attempt>, ghost rest: seq<string>, ghost goal: Report)
      returns (stopped: Option<Result>, turn: nat, lastError: Option<Reply>, ghost trace: seq<Attempt>)
      requires Valid() && settings.fallbackEnabled
      requires OnTheWay(settings, env, turn0, settings.providers + rest, Carry(providers, trace0, lastError0), goal)
      modifies this, circuitBreaker.Values
      ensures Valid()
      ensures stopped.Some? ==> Report(providers, stopped.value, trace) == goal
      ensures stopped.None? ==> OnTheWay(settings, env, turn, rest, Carry(providers, trace, lastError), goal)
    {
      turn, lastError, trace := turn0, lastError0, trace0;
      ghost var todo := settings.providers + rest;
      var i := 0;
      while i < |settings.providers|
        invariant Valid() && 0 <= i <= |settings.providers| && todo == settings.providers[i..] + rest
        invariant OnTheWay(settings, env, turn, todo, Carry(providers, trace, lastError), goal)
      {
        var provider := settings.providers[i];
        ghost var next := settings.providers[i + 1..] + rest;
        NextTurn(settings.providers, i, rest);
        stopped, lastError, trace := LoopBody(env, turn, provider, next, lastError, trace, goal);
        todo, i, turn := next, i + 1, turn + 1;
        if stopped.Some? {
          return;
        }
      }
      assert todo == rest;
      stopped := None;
    }

    /** The body of the loops: one turn, and whether its reply ends them. */
    method LoopBody(env: nat -> Slot, turn: nat, provider: string, ghost todo: seq<string>,
                    lastError0: Option<Reply>, ghost trace0: seq<Attempt>, ghost goal: Report)
      returns (stopped: Option<Result>, lastError: Option<Reply>, ghost trace: seq<Attempt>)
      requires Valid() && settings.fallbackEnabled && provider in circuitBreaker
      requires OnTheWay(settings, env, turn, [provider] + todo, Carry(providers, trace0, lastError0), goal)
      modifies this, circuitBreaker[provider]
      ensures Valid()
      ensures stopped.Some? ==> Report(providers, stopped.value, trace) == goal
      ensures stopped.None? ==> OnTheWay(settings, env, turn + 1, todo, Carry(providers, trace, lastError), goal)
    {
      LoopUnfold(settings, env, turn, provider, todo, Carry(providers, trace0, lastError0));
      stopped, lastError, trace := None, lastError0, trace0;
      var slot := env(turn);
      var mark := TakeTurn(provider, slot);
      if mark.Skipped? {
        return;
      }
      trace := trace + [Attempt(turn, provider, mark.reply)];
      lastError := Some(mark.reply);
      if mark.reply.Answer? {
        stopped := Some(Answered(mark.reply.text));
        return;
      }
      if mark.reply.Refusal? && !mark.reply.retryable {
        return;
      }
      if settings.fallbackDelay > 0 && slot.cancelled {
        stopped := Some(Cancelled);
      }
    }

    /** Chat and Complete. */
    method Chat(requested: string, env: nat -> Slot) returns (result: Result, ghost trace: seq<Attempt>)
      requires Valid()
      modifies this, circuitBreaker.Values
      ensures Valid() && Serves(settings.providers, old(providers))
      ensures Report(providers, result, trace) == ChatSpec(settings, old(providers), requested, env)
    {
      var target := requested;
      if target == "" && settings.primary != "" {
        target := settings.primary;
      }
      if target == "" {
        result, trace := ChatWithFallback(env);
      } else if target in settings.providers {
        var mark := TakeTurn(target, env(0));
        match mark {
          case Called(reply) => return ReplyResult(reply), [Attempt(0, target, reply)];
          case Skipped => return Unavailable(target), [];
        }
      } else {
        return NotFound(target), [];
      }
    }
  }
}
