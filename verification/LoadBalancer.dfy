/** Selection of worker pools in internal/websocket/optimization.go:888-924, 1097-1110. */
module LoadBalancing {
  import opened Common

  lemma SignOfProduct(x: real, b: real)
    requires b > 0.0
    ensures x * b > 0.0 <==> x > 0.0
    ensures x * b < 0.0 <==> x < 0.0
  {
    if x > 0.0 {
      assert x * b > 0.0;
    } else if x < 0.0 {
      assert (-x) * b > 0.0;
    }
  }

  lemma RatioInRange(a: real, b: real)
    requires 0.0 <= a <= b && b > 0.0
    ensures 0.0 <= a / b <= 1.0
    ensures a / b == 1.0 <==> a == b
  {
    var q, d := a / b, a / b - 1.0;
    assert q * b == a;
    assert d * b == q * b - b;
    SignOfProduct(q, b);
    SignOfProduct(d, b);
  }

  datatype WorkerPool = WorkerPool(busy: nat, workers: nat) {
    predicate Valid() { busy <= workers }

    function Utilization(): (u: real)
      requires Valid()
      ensures 0.0 <= u <= 1.0
      ensures u == 1.0 <==> workers > 0 && busy == workers
      ensures u * workers as real == busy as real && (workers == 0 ==> u == 0.0)
    {
      if workers == 0 then 0.0
      else
        RatioInRange(busy as real, workers as real);
        busy as real / workers as real
    }
  }

  datatype Strategy = RoundRobin | LeastLoaded | Other

  class LoadBalancer {
    const strategy: Strategy
    var workerPools: seq<WorkerPool>
    var roundRobin: nat

    constructor (strategy: Strategy, workerPools: seq<WorkerPool>)
      ensures this.strategy == strategy && this.workerPools == workerPools && roundRobin == 0
    {
      this.strategy, this.workerPools, roundRobin := strategy, workerPools, 0;
    }

    method SelectWorkerPool() returns (selected: Option<nat>)
      requires forall i :: 0 <= i < |workerPools| ==> workerPools[i].Valid()
      modifies `roundRobin
      ensures strategy != LeastLoaded && workerPools != [] ==>
                roundRobin == old(roundRobin) + 1 && selected == Some(Selected(|workerPools|, old(roundRobin), 1))
      ensures workerPools == [] ==> selected == None
      ensures strategy == LeastLoaded ==>
                IsLeastLoaded(workerPools, |workerPools|, selected) && roundRobin == old(roundRobin)
    {
      match strategy {
        case LeastLoaded => selected := LeastLoadedSelect();
        case RoundRobin => selected := RoundRobinSelect();
        case Other => selected := RoundRobinSelect();
      }
    }

    method RoundRobinSelect() returns (selected: Option<nat>)
      modifies `roundRobin
      ensures workerPools == [] ==> selected == None && roundRobin == old(roundRobin)
      ensures workerPools != [] ==>
                roundRobin == old(roundRobin) + 1 && selected == Some(Selected(|workerPools|, old(roundRobin), 1))
    {
      if |workerPools| == 0 {
        return None;
      }
      roundRobin := roundRobin + 1;
      return Some(roundRobin % |workerPools|);
    }

    /** The first of the least utilized pools, unless all are fully busy. */
    method LeastLoadedSelect() returns (selected: Option<nat>)
      requires forall i :: 0 <= i < |workerPools| ==> workerPools[i].Valid()
      ensures IsLeastLoaded(workerPools, |workerPools|, selected)
    {
      if |workerPools| == 0 {
        return None;
      }
      selected := None;
      var minLoad := 1.0;
      for i := 0 to |workerPools|
        invariant IsLeastLoaded(workerPools, i, selected)
        invariant minLoad == if selected.Some? then workerPools[selected.value].Utilization() else 1.0
      {
        var utilization := workerPools[i].Utilization();
        if utilization < minLoad {
          minLoad := utilization;
          selected := Some(i);
        }
      }
    }
  }

  /** Among the first n pools: no pool is selected exactly when every pool has only busy
      workers; otherwise the selected one is the first with the least utilization. */
  ghost predicate IsLeastLoaded(pools: seq<WorkerPool>, n: nat, selected: Option<nat>)
    requires n <= |pools| && forall i :: 0 <= i < |pools| ==> pools[i].Valid()
  {
    match selected
    case None => forall i :: 0 <= i < n ==> pools[i].workers > 0 && pools[i].busy == pools[i].workers
    case Some(s) =>
      && s < n
      && pools[s].Utilization() < 1.0
      && (forall i :: 0 <= i < n ==> pools[s].Utilization() <= pools[i].Utilization())
      && (forall i :: 0 <= i < s ==> pools[s].Utilization() < pools[i].Utilization())
  }

  predicate AllBusy(pools: seq<WorkerPool>) {
    forall i :: 0 <= i < |pools| ==> pools[i].workers > 0 && pools[i].busy == pools[i].workers
  }

  /** What the choice by load returns is determined, and it is no pool exactly when all of them
      are fully busy, however many there are to wait for. */
  lemma NoneIffAllBusy(pools: seq<WorkerPool>, selected: Option<nat>, other: Option<nat>)
    requires forall i :: 0 <= i < |pools| ==> pools[i].Valid()
    requires IsLeastLoaded(pools, |pools|, selected) && IsLeastLoaded(pools, |pools|, other)
    ensures selected == None <==> AllBusy(pools)
    ensures selected == other
  {
    if selected.Some? {
      var pool := pools[selected.value];
      assert pool.Utilization() < 1.0 && !(pool.workers > 0 && pool.busy == pool.workers);
    }
    if selected.Some? && other.Some? {
      assert pools[selected.value].Utilization() == pools[other.value].Utilization();
    }
  }

  /** One pool with one worker at work: nothing is selected although there is a pool. */
  lemma BusyPoolIsPassedOver() returns (pools: seq<WorkerPool>)
    ensures |pools| == 1 && pools[0].Valid() && IsLeastLoaded(pools, 1, None)
  {
    pools := [WorkerPool(1, 1)];
  }

  // ---- Fairness of the rotation ----

  /** The pool chosen by the k-th selection after the counter stood at `counter`. */
  function Selected(n: nat, counter: nat, k: nat): nat
    requires n > 0
  {
    (counter + k) % n
  }

  /** A new balancer begins with the second pool, and then goes round in the pools' order. */
  lemma RotationOrder(n: nat, counter: nat, k: nat)
    requires n > 0
    ensures Selected(n, 0, 1) == if n == 1 then 0 else 1
    ensures Selected(n, counter, k + 1) == if Selected(n, counter, k) == n - 1 then 0 else Selected(n, counter, k) + 1
  {
    var x := counter + k;
    assert x == n * (x / n) + x % n;
    Distribute(n, x / n, 1);
    if x % n == n - 1 {
      QuotientIs(x + 1, n, x / n + 1, 0);
    } else {
      QuotientIs(x + 1, n, x / n, x % n + 1);
    }
    QuotientIs(1, n, if n == 1 then 1 else 0, if n == 1 then 0 else 1);
  }

  /** How often pool `p` is chosen by the next k selections. */
  function TimesSelected(n: nat, counter: nat, k: nat, p: nat): nat
    requires n > 0
  {
    if k == 0 then 0 else TimesSelected(n, counter, k - 1, p) + (if Selected(n, counter, k) == p then 1 else 0)
  }

  /** Stepping past x moves the quotient exactly at the multiples of n. */
  lemma QuotientStep(x: int, n: int)
    requires n > 0
    ensures x / n - (x - 1) / n == if x % n == 0 then 1 else 0
  {
    var q, r := x / n, x % n;
    assert x == n * q + r;
    assert n * (q - 1) == n * q - n && n * (q + 1) == n * q + n;
    QuotientBounds(x - 1, n, q);
    QuotientBounds(x - 1, n, q - 1);
    QuotientBounds(x - 1, n, q + 1);
  }

  lemma SameRemainder(x: int, p: int, n: int)
    requires 0 <= p < n
    ensures x % n == p <==> (x - p) % n == 0
  {
    var q := x / n;
    assert x == n * q + x % n;
    var d := x - p;
    assert d == n * (d / n) + d % n;
    if x % n == p {
      assert d == n * q;
      QuotientBounds(d, n, q);
      QuotientBounds(d, n, q + 1);
      assert n * (q + 1) == n * q + n;
    }
    if d % n == 0 {
      QuotientBounds(x, n, d / n);
      QuotientBounds(x, n, d / n + 1);
      assert n * (d / n + 1) == n * (d / n) + n;
    }
  }

  lemma {:induction false} TimesSelectedClosedForm(n: nat, counter: nat, k: nat, p: nat)
    requires p < n
    ensures TimesSelected(n, counter, k, p) == (counter + k - p) / n - (counter - p) / n
  {
    if k == 0 {
    } else {
      TimesSelectedClosedForm(n, counter, k - 1, p);
      QuotientStep(counter + k - p, n);
      SameRemainder(counter + k, p, n);
    }
  }

  lemma Distribute(n: int, x: int, y: int)
    ensures n * (x + y) == n * x + n * y
    ensures n * (x - y) == n * x - n * y
  {
  }

  lemma QuotientOfSumAtLeast(a: int, k: nat, n: int)
    requires n > 0
    ensures a / n + k / n <= (a + k) / n
  {
    QuotientBounds(a, n, a / n);
    QuotientBounds(k, n, k / n);
    Distribute(n, a / n, k / n);
    QuotientBounds(a + k, n, a / n + k / n);
  }

  lemma QuotientOfSumAtMost(a: int, k: nat, n: int)
    requires n > 0
    ensures (a + k) / n <= a / n + (k + n - 1) / n
  {
    var lo, hi := a / n, (a + k) / n;
    QuotientBounds(a + k, n, hi);
    QuotientBounds(a, n, lo + 1);
    Distribute(n, lo, 1);
    Distribute(n, hi, lo);
    QuotientBounds(k + n - 1, n, hi - lo);
  }

  lemma RoundedUpAtMostOneMore(k: nat, n: int)
    requires n > 0
    ensures (k + n - 1) / n <= k / n + 1
  {
    QuotientBounds(k, n, k / n + 1);
    Distribute(n, k / n + 1, 1);
    QuotientBounds(k + n - 1, n, k / n + 1 + 1);
  }

  /** Any k consecutive selections over n pools choose each pool k / n times, rounded down or
      up. */
  lemma RotationIsFair(n: nat, counter: nat, k: nat, p: nat)
    requires p < n
    ensures k / n <= TimesSelected(n, counter, k, p) <= (k + n - 1) / n <= k / n + 1
  {
    TimesSelectedClosedForm(n, counter, k, p);
    QuotientOfSumAtLeast(counter - p, k, n);
    QuotientOfSumAtMost(counter - p, k, n);
    RoundedUpAtMostOneMore(k, n);
  }
}
