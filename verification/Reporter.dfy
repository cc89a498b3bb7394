/** The bounded, de-duplicating error log of pkg/errors/recovery.go:414-614. */
module Reporter {
  import opened Common
  import opened Errors

  /** Two reports are the same error when they agree on these three. */
  datatype Key = Key(code: int, category: string, message: string)

  function KeyOf(e: EnhancedError): Key {
    Key(e.code, e.category, e.message)
  }

  datatype ErrorReport = ErrorReport(
    error: EnhancedError,
    timestamp: int,
    count: int,
    lastSeen: int,
    firstSeen: int,
    resolved: bool,
    resolutionTime: Option<int>)

  /** One report: the error and when it was reported. */
  datatype Entry = Entry(error: EnhancedError, now: int)

  /** The stored reports beside a full account of the past: `log` lists every report ever made,
      `since[k]` is the position in it of the report that last created an entry for `k`, and
      `evicted` and `cleared` add up the counts that left the store. */
  datatype Ledger = Ledger(
    errors: seq<ErrorReport>,
    log: seq<Entry>,
    since: map<Key, nat>,
    evicted: int,
    cleared: int,
    clock: int)

  const EMPTY := Ledger([], [], map[], 0, 0, 0)

  /** First position from `from` on that satisfies the source's comparison, or the length. */
  function FindKey(errors: seq<ErrorReport>, key: Key, from: nat): (i: nat)
    requires from <= |errors|
    ensures from <= i <= |errors|
    ensures i < |errors| ==> KeyOf(errors[i].error) == key
    ensures forall j :: from <= j < i ==> KeyOf(errors[j].error) != key
    decreases |errors| - from
  {
    if from == |errors| || KeyOf(errors[from].error) == key then from else FindKey(errors, key, from + 1)
  }

  function FindID(errors: seq<ErrorReport>, id: string, from: nat): (i: nat)
    requires from <= |errors|
    ensures from <= i <= |errors|
    ensures i < |errors| ==> errors[i].error.errorID == id
    ensures forall j :: from <= j < i ==> errors[j].error.errorID != id
    decreases |errors| - from
  {
    if from == |errors| || errors[from].error.errorID == id then from else FindID(errors, id, from + 1)
  }

  function NewReport(err: EnhancedError, now: int): ErrorReport {
    ErrorReport(err, now, 1, now, now, false, None)
  }

  /** One more report of the error stored at `i`. */
  function Bumped(l: Ledger, i: nat, err: EnhancedError, now: int): Ledger
    requires i < |l.errors|
  {
    var r := l.errors[i];
    l.(errors := l.errors[i := r.(count := r.count + 1, lastSeen := now)],
       log := l.log + [Entry(err, now)],
       clock := now)
  }

  function Appended(l: Ledger, err: EnhancedError, now: int): Ledger {
    l.(errors := l.errors + [NewReport(err, now)],
       log := l.log + [Entry(err, now)],
       since := l.since[KeyOf(err) := |l.log|],
       clock := now)
  }

  /** Drops the oldest report when there are too many. */
  function Limited(l: Ledger, maxErrors: int): Ledger
    requires maxErrors > 0
  {
    if |l.errors| > maxErrors then l.(errors := l.errors[1..], evicted := l.evicted + l.errors[0].count) else l
  }

  function Reported(l: Ledger, err: EnhancedError, now: int, maxErrors: int): Ledger
    requires maxErrors > 0
  {
    var i := FindKey(l.errors, KeyOf(err), 0);
    if i < |l.errors| then Bumped(l, i, err, now) else Limited(Appended(l, err, now), maxErrors)
  }

  function Resolved(l: Ledger, id: string, now: int): Ledger {
    var i := FindID(l.errors, id, 0);
    if i < |l.errors|
    then l.(errors := l.errors[i := l.errors[i].(resolved := true, resolutionTime := Some(now))], clock := now)
    else l.(clock := now)
  }

  predicate Keep(r: ErrorReport, cutoff: int) {
    !r.resolved || (r.resolutionTime.Some? && r.resolutionTime.value > cutoff)
  }

  /** The reports that survive a clearing, in their order. */
  function Kept(errors: seq<ErrorReport>, cutoff: int): seq<ErrorReport> {
    if errors == [] then []
    else
      var before, last := errors[..|errors| - 1], errors[|errors| - 1];
      if Keep(last, cutoff) then Kept(before, cutoff) + [last] else Kept(before, cutoff)
  }

  function Total(errors: seq<ErrorReport>): int {
    if errors == [] then 0 else Total(errors[..|errors| - 1]) + errors[|errors| - 1].count
  }

  /** The counts of the reports that do not, added up. */
  function DroppedTotal(errors: seq<ErrorReport>, cutoff: int): int {
    if errors == [] then 0
    else
      var before, last := errors[..|errors| - 1], errors[|errors| - 1];
      DroppedTotal(before, cutoff) + (if Keep(last, cutoff) then 0 else last.count)
  }

  function Cleared(l: Ledger, maxAge: int, now: int): Ledger {
    var cutoff := now - maxAge;
    l.(errors := Kept(l.errors, cutoff), cleared := l.cleared + DroppedTotal(l.errors, cutoff), clock := now)
  }

  // ---- The index invariant ----

  function Occurrences(log: seq<Entry>, key: Key): nat {
    if log == [] then 0
    else Occurrences(log[..|log| - 1], key) + (if KeyOf(log[|log| - 1].error) == key then 1 else 0)
  }

  /** When the key was reported last. */
  function LastTime(log: seq<Entry>, key: Key): int {
    if log == [] then 0
    else if KeyOf(log[|log| - 1].error) == key then log[|log| - 1].now
    else LastTime(log[..|log| - 1], key)
  }

  /** `a` is another error than `b` and was created before it. */
  predicate Precedes(a: ErrorReport, b: ErrorReport, since: map<Key, nat>) {
    var ka, kb := KeyOf(a.error), KeyOf(b.error);
    ka != kb && a.firstSeen <= b.firstSeen && ka in since && kb in since && since[ka] < since[kb]
  }

  ghost predicate Ordered(errors: seq<ErrorReport>, since: map<Key, nat>) {
    forall i, j :: 0 <= i < j < |errors| ==> Precedes(errors[i], errors[j], since)
  }

  /** The report shows the error and the time of the log entry that created it, the time of the
      latest entry with its key, and the number of such entries from its creation on. */
  ghost predicate Accurate(r: ErrorReport, since: map<Key, nat>, log: seq<Entry>, clock: int) {
    var key := KeyOf(r.error);
    && key in since && since[key] < |log|
    && log[since[key]] == Entry(r.error, r.firstSeen)
    && r.count == Occurrences(log[since[key]..], key)
    && r.lastSeen == LastTime(log, key)
    && r.timestamp == r.firstSeen <= r.lastSeen <= clock
    && (r.resolved <==> r.resolutionTime.Some?) && (r.resolved ==> r.resolutionTime.value <= clock)
  }

  ghost predicate AllAccurate(l: Ledger) {
    forall r :: r in l.errors ==> Accurate(r, l.since, l.log, l.clock)
  }

  ghost predicate Index(l: Ledger, maxErrors: int) {
    && |l.errors| <= maxErrors
    && Ordered(l.errors, l.since)
    && AllAccurate(l)
    && Total(l.errors) + l.evicted + l.cleared == |l.log|
  }

  lemma OccurrencesSnoc(log: seq<Entry>, since: nat, next: Entry, key: Key)
    requires since <= |log|
    ensures Occurrences((log + [next])[since..], key)
            == Occurrences(log[since..], key) + (if KeyOf(next.error) == key then 1 else 0)
    ensures LastTime(log + [next], key) == if KeyOf(next.error) == key then next.now else LastTime(log, key)
  {
    var tail := (log + [next])[since..];
    assert tail[..|tail| - 1] == log[since..];
    assert tail[|tail| - 1] == next;
    assert (log + [next])[..|log|] == log;
  }

  lemma {:induction false} TotalUpdate(errors: seq<ErrorReport>, i: nat, r: ErrorReport)
    requires i < |errors|
    ensures Total(errors[i := r]) == Total(errors) - errors[i].count + r.count
  {
    var n := |errors| - 1;
    if i == n {
      assert errors[i := r][..n] == errors[..n];
    } else {
      TotalUpdate(errors[..n], i, r);
      assert errors[i := r][..n] == errors[..n][i := r];
    }
  }

  lemma {:induction false} TotalTail(errors: seq<ErrorReport>)
    requires errors != []
    ensures Total(errors) == errors[0].count + Total(errors[1..])
  {
    var n := |errors| - 1;
    if n == 0 {
    } else {
      TotalTail(errors[..n]);
      assert errors[..n][1..] == errors[1..][..n - 1];
    }
  }

  /** Reports of other errors do not change a report's count, further ones of its own do. */
  lemma AccurateSnoc(r: ErrorReport, since: map<Key, nat>, log: seq<Entry>, clock: int, next: Entry)
    requires Accurate(r, since, log, clock) && clock <= next.now
    ensures KeyOf(next.error) != KeyOf(r.error) ==> Accurate(r, since, log + [next], next.now)
    ensures KeyOf(next.error) == KeyOf(r.error) ==>
              Accurate(r.(count := r.count + 1, lastSeen := next.now), since, log + [next], next.now)
  {
    OccurrencesSnoc(log, since[KeyOf(r.error)], next, KeyOf(r.error));
  }

  lemma BumpedKeepsAccuracy(l: Ledger, i: nat, err: EnhancedError, now: int)
    requires AllAccurate(l) && Ordered(l.errors, l.since) && l.clock <= now
    requires i < |l.errors| && KeyOf(l.errors[i].error) == KeyOf(err)
    ensures AllAccurate(Bumped(l, i, err, now))
  {
    var l' := Bumped(l, i, err, now);
    forall j | 0 <= j < |l.errors|
      ensures Accurate(l'.errors[j], l'.since, l'.log, now)
    {
      assert l.errors[j] in l.errors;
      AccurateSnoc(l.errors[j], l.since, l.log, l.clock, Entry(err, now));
      assert j < i ==> Precedes(l.errors[j], l.errors[i], l.since);
      assert i < j ==> Precedes(l.errors[i], l.errors[j], l.since);
    }
  }

  lemma BumpedKeepsIndex(l: Ledger, i: nat, err: EnhancedError, now: int, maxErrors: int)
    requires Index(l, maxErrors) && i < |l.errors| && KeyOf(l.errors[i].error) == KeyOf(err) && l.clock <= now
    ensures Index(Bumped(l, i, err, now), maxErrors)
  {
    var l' := Bumped(l, i, err, now);
    BumpedKeepsAccuracy(l, i, err, now);
    forall j, k | 0 <= j < k < |l'.errors|
      ensures Precedes(l'.errors[j], l'.errors[k], l.since)
    {
      assert Precedes(l.errors[j], l.errors[k], l.since);
    }
    TotalUpdate(l.errors, i, l'.errors[i]);
  }

  lemma AppendedKeepsAccuracy(l: Ledger, err: EnhancedError, now: int)
    requires AllAccurate(l) && l.clock <= now
    requires forall r :: r in l.errors ==> KeyOf(r.error) != KeyOf(err)
    ensures AllAccurate(Appended(l, err, now))
  {
    var next, l' := Entry(err, now), Appended(l, err, now);
    forall r | r in l'.errors
      ensures Accurate(r, l'.since, l'.log, now)
    {
      if r in l.errors {
        AccurateSnoc(r, l.since, l.log, l.clock, next);
      } else {
        OccurrencesSnoc(l.log, |l.log|, next, KeyOf(err));
        assert l.log[|l.log|..] == [];
      }
    }
  }

  lemma AppendedKeepsOrder(l: Ledger, err: EnhancedError, now: int)
    requires Ordered(l.errors, l.since) && AllAccurate(l) && l.clock <= now
    requires forall r :: r in l.errors ==> KeyOf(r.error) != KeyOf(err)
    ensures Ordered(Appended(l, err, now).errors, Appended(l, err, now).since)
  {
    var l' := Appended(l, err, now);
    forall i, j | 0 <= i < j < |l'.errors|
      ensures Precedes(l'.errors[i], l'.errors[j], l'.since)
    {
      assert l.errors[i] in l.errors && Accurate(l.errors[i], l.since, l.log, l.clock);
      if j < |l.errors| {
        assert l.errors[j] in l.errors && Precedes(l.errors[i], l.errors[j], l.since);
      }
    }
  }

  lemma LimitedKeepsIndex(l: Ledger, maxErrors: int)
    requires maxErrors > 0 && Index(l, maxErrors + 1)
    ensures Index(Limited(l, maxErrors), maxErrors)
  {
    if |l.errors| > maxErrors {
      TotalTail(l.errors);
    }
  }

  lemma ReportedKeepsIndex(l: Ledger, err: EnhancedError, now: int, maxErrors: int)
    requires maxErrors > 0 && Index(l, maxErrors) && l.clock <= now
    ensures Index(Reported(l, err, now, maxErrors), maxErrors)
  {
    var i := FindKey(l.errors, KeyOf(err), 0);
    if i < |l.errors| {
      BumpedKeepsIndex(l, i, err, now, maxErrors);
    } else {
      var l' := Appended(l, err, now);
      AppendedKeepsAccuracy(l, err, now);
      AppendedKeepsOrder(l, err, now);
      assert l'.errors[..|l.errors|] == l.errors;
      LimitedKeepsIndex(l', maxErrors);
    }
  }

  /** A further report of a stored error is counted there, with its time, and changes nothing else
      in the store; in particular it does not take back a resolution. */
  lemma KnownReportCounts(l: Ledger, err: EnhancedError, now: int, maxErrors: int, i: nat)
    requires maxErrors > 0 && Index(l, maxErrors) && i < |l.errors| && KeyOf(l.errors[i].error) == KeyOf(err)
    ensures var r, r' := l.errors, Reported(l, err, now, maxErrors).errors;
      && |r'| == |r|
      && r'[i].count == r[i].count + 1 && r'[i].lastSeen == now && r'[i].firstSeen == r[i].firstSeen
      && r'[i].error == r[i].error && r'[i].resolved == r[i].resolved
      && forall j :: 0 <= j < |r| && j != i ==> r'[j] == r[j]
  {
    var k := FindKey(l.errors, KeyOf(err), 0);
    if k != i {
      OneReportPerKey(l, maxErrors, k, i);
    }
  }

  /** A new error is stored last, and what makes room for it in a full store is the report
      that was created before all others. */
  lemma EvictedIsOldest(l: Ledger, err: EnhancedError, now: int, maxErrors: int)
    requires maxErrors > 0 && Index(l, maxErrors)
    requires forall r :: r in l.errors ==> KeyOf(r.error) != KeyOf(err)
    ensures var l' := Reported(l, err, now, maxErrors);
      l'.errors == (if |l.errors| == maxErrors then l.errors[1..] else l.errors) + [NewReport(err, now)]
    ensures forall i :: 0 < i < |l.errors| ==> l.since[KeyOf(l.errors[0].error)] < l.since[KeyOf(l.errors[i].error)]
  {
    if l.errors != [] {
      assert (l.errors + [NewReport(err, now)])[1..] == l.errors[1..] + [NewReport(err, now)];
    }
    forall i | 0 < i < |l.errors|
      ensures l.since[KeyOf(l.errors[0].error)] < l.since[KeyOf(l.errors[i].error)]
    {
      assert Precedes(l.errors[0], l.errors[i], l.since);
    }
  }

  /** A resolution resolves the first report with the identifier, at its own instant, and leaves
      everything else as it is. */
  lemma ResolvedMeaning(l: Ledger, id: string, now: int, i: nat)
    requires i < |l.errors| && l.errors[i].error.errorID == id
    requires forall j :: 0 <= j < i ==> l.errors[j].error.errorID != id
    ensures var r := Resolved(l, id, now).errors;
      && |r| == |l.errors|
      && r[i].resolved && r[i].resolutionTime == Some(now)
      && r[i].error == l.errors[i].error && r[i].count == l.errors[i].count
      && r[i].firstSeen == l.errors[i].firstSeen && r[i].lastSeen == l.errors[i].lastSeen
      && forall j :: 0 <= j < |r| && j != i ==> r[j] == l.errors[j]
  {
  }

  /** An unknown identifier resolves nothing. */
  lemma UnknownResolvesNothing(l: Ledger, id: string, now: int)
    requires forall j :: 0 <= j < |l.errors| ==> l.errors[j].error.errorID != id
    ensures Resolved(l, id, now).errors == l.errors
  {
  }

  lemma ResolvedKeepsAccuracy(l: Ledger, id: string, now: int)
    requires AllAccurate(l) && l.clock <= now
    ensures AllAccurate(Resolved(l, id, now))
  {
    var l' := Resolved(l, id, now);
    forall j | 0 <= j < |l.errors|
      ensures Accurate(l'.errors[j], l'.since, l'.log, now)
    {
      assert l.errors[j] in l.errors && Accurate(l.errors[j], l.since, l.log, l.clock);
    }
  }

  lemma ResolvedKeepsOrder(l: Ledger, id: string, now: int)
    requires Ordered(l.errors, l.since)
    ensures Ordered(Resolved(l, id, now).errors, l.since)
  {
    var l' := Resolved(l, id, now);
    forall i, j | 0 <= i < j < |l'.errors|
      ensures Precedes(l'.errors[i], l'.errors[j], l.since)
    {
      assert Precedes(l.errors[i], l.errors[j], l.since);
    }
  }

  lemma ResolvedKeepsIndex(l: Ledger, id: string, now: int, maxErrors: int)
    requires Index(l, maxErrors) && l.clock <= now
    ensures Index(Resolved(l, id, now), maxErrors)
  {
    ResolvedKeepsAccuracy(l, id, now);
    ResolvedKeepsOrder(l, id, now);
    var i := FindID(l.errors, id, 0);
    if i < |l.errors| {
      TotalUpdate(l.errors, i, Resolved(l, id, now).errors[i]);
    }
  }

  lemma {:induction false} KeptIsFilter(errors: seq<ErrorReport>, cutoff: int)
    ensures |Kept(errors, cutoff)| <= |errors|
    ensures forall r :: r in Kept(errors, cutoff) <==> r in errors && Keep(r, cutoff)
  {
    if errors == [] {
    } else {
      var before, last := errors[..|errors| - 1], errors[|errors| - 1];
      KeptIsFilter(before, cutoff);
      assert errors == before + [last];
    }
  }

  lemma {:induction false} KeptIsOrderedFilter(errors: seq<ErrorReport>, since: map<Key, nat>, cutoff: int)
    requires Ordered(errors, since)
    ensures |Kept(errors, cutoff)| <= |errors|
    ensures forall r :: r in Kept(errors, cutoff) <==> r in errors && Keep(r, cutoff)
    ensures Ordered(Kept(errors, cutoff), since)
  {
    KeptIsFilter(errors, cutoff);
    if errors == [] {
    } else {
      var before, last := errors[..|errors| - 1], errors[|errors| - 1];
      KeptIsOrderedFilter(before, since, cutoff);
      KeptIsFilter(before, cutoff);
      forall r | r in Kept(before, cutoff)
        ensures Precedes(r, last, since)
      {
        var i :| 0 <= i < |before| && errors[i] == r;
      }
    }
  }

  lemma TotalSnoc(errors: seq<ErrorReport>, r: ErrorReport)
    ensures Total(errors + [r]) == Total(errors) + r.count
  {
    assert (errors + [r])[..|errors|] == errors;
  }

  /** Every report is either kept or dropped, with its count. */
  lemma {:induction false} KeptAndDropped(errors: seq<ErrorReport>, cutoff: int)
    ensures Total(Kept(errors, cutoff)) + DroppedTotal(errors, cutoff) == Total(errors)
  {
    if errors == [] {
    } else {
      var before, last := errors[..|errors| - 1], errors[|errors| - 1];
      KeptAndDropped(before, cutoff);
      TotalSnoc(Kept(before, cutoff), last);
    }
  }

  /** Clearing is a filter that keeps the order: it retains a report exactly when that is
      unresolved or was resolved after the cutoff. */
  lemma ClearedMeaning(l: Ledger, maxAge: int, now: int, maxErrors: int)
    requires Index(l, maxErrors)
    ensures var l' := Cleared(l, maxAge, now);
      && Ordered(l'.errors, l'.since)
      && forall r :: r in l'.errors <==>
           r in l.errors && (!r.resolved || r.resolutionTime.value > now - maxAge)
  {
    KeptIsOrderedFilter(l.errors, l.since, now - maxAge);
    assert forall r :: r in l.errors ==> Accurate(r, l.since, l.log, l.clock);
  }

  lemma ClearedKeepsAccuracy(l: Ledger, maxAge: int, now: int)
    requires AllAccurate(l) && l.clock <= now
    ensures AllAccurate(Cleared(l, maxAge, now))
  {
    KeptIsFilter(l.errors, now - maxAge);
    forall r | r in Kept(l.errors, now - maxAge)
      ensures Accurate(r, l.since, l.log, now)
    {
      assert Accurate(r, l.since, l.log, l.clock);
    }
  }

  lemma ClearedKeepsOrder(l: Ledger, maxAge: int, now: int)
    requires Ordered(l.errors, l.since)
    ensures var l' := Cleared(l, maxAge, now); |l'.errors| <= |l.errors| && Ordered(l'.errors, l'.since)
  {
    KeptIsOrderedFilter(l.errors, l.since, now - maxAge);
  }

  lemma ClearedKeepsTotal(l: Ledger, maxAge: int, now: int)
    ensures var l' := Cleared(l, maxAge, now);
      Total(l'.errors) + l'.evicted + l'.cleared == Total(l.errors) + l.evicted + l.cleared && l'.log == l.log
  {
    KeptAndDropped(l.errors, now - maxAge);
  }

  lemma ClearedKeepsIndex(l: Ledger, maxAge: int, now: int, maxErrors: int)
    requires Index(l, maxErrors) && l.clock <= now
    ensures Index(Cleared(l, maxAge, now), maxErrors)
  {
    ClearedKeepsAccuracy(l, maxAge, now);
    ClearedKeepsOrder(l, maxAge, now);
    ClearedKeepsTotal(l, maxAge, now);
  }

  // ---- Whole runs ----

  datatype Event =
    | Report(err: EnhancedError, now: int)
    | Resolve(id: string, now: int)
    | Clear(maxAge: int, now: int)

  function Step(l: Ledger, event: Event, maxErrors: int): Ledger
    requires maxErrors > 0
  {
    match event
    case Report(err, now) => Reported(l, err, now, maxErrors)
    case Resolve(id, now) => Resolved(l, id, now)
    case Clear(maxAge, now) => Cleared(l, maxAge, now)
  }

  lemma StepKeepsIndex(l: Ledger, event: Event, maxErrors: int)
    requires maxErrors > 0 && Index(l, maxErrors) && l.clock <= event.now
    ensures Index(Step(l, event, maxErrors), maxErrors)
  {
    match event
    case Report(err, now) => ReportedKeepsIndex(l, err, now, maxErrors);
    case Resolve(id, now) => ResolvedKeepsIndex(l, id, now, maxErrors);
    case Clear(maxAge, now) => ClearedKeepsIndex(l, maxAge, now, maxErrors);
  }

  lemma StepExtendsLog(l: Ledger, event: Event, maxErrors: int)
    requires maxErrors > 0
    ensures var l' := Step(l, event, maxErrors);
      l'.clock == event.now && l'.log == l.log + (if event.Report? then [Entry(event.err, event.now)] else [])
  {
  }

  function Replay(events: seq<Event>, maxErrors: int): Ledger
    requires maxErrors > 0
  {
    if events == [] then EMPTY
    else Step(Replay(events[..|events| - 1], maxErrors), events[|events| - 1], maxErrors)
  }

  ghost predicate Monotone(events: seq<Event>) {
    && (forall i :: 0 <= i < |events| ==> 0 <= events[i].now)
    && (forall i, j :: 0 <= i < j < |events| ==> events[i].now <= events[j].now)
  }

  lemma MonotoneSnoc(events: seq<Event>, event: Event)
    requires Monotone(events) && 0 <= event.now && (events != [] ==> events[|events| - 1].now <= event.now)
    ensures Monotone(events + [event])
  {
    forall i | 0 <= i < |events|
      ensures events[i].now <= event.now
    {
      assert i < |events| - 1 ==> events[i].now <= events[|events| - 1].now;
    }
  }

  function ReportsIn(events: seq<Event>): seq<Entry> {
    if events == [] then []
    else ReportsIn(events[..|events| - 1])
         + (var e := events[|events| - 1]; if e.Report? then [Entry(e.err, e.now)] else [])
  }

  /** After any run the store is an index of the run's reports: what is retained, evicted and
      cleared adds up to all of them. */
  lemma {:induction false} IndexOverRuns(events: seq<Event>, maxErrors: int)
    requires maxErrors > 0 && Monotone(events)
    ensures Index(Replay(events, maxErrors), maxErrors)
    ensures Replay(events, maxErrors).log == ReportsIn(events)
    ensures Replay(events, maxErrors).clock == if events == [] then 0 else events[|events| - 1].now
  {
    if events == [] {
    } else {
      var before, last := events[..|events| - 1], events[|events| - 1];
      IndexOverRuns(before, maxErrors);
      StepKeepsIndex(Replay(before, maxErrors), last, maxErrors);
      StepExtendsLog(Replay(before, maxErrors), last, maxErrors);
    }
  }

  /** The stored reports after one more, step by step. */
  lemma ReportedErrors(l: Ledger, err: EnhancedError, now: int, maxErrors: int)
    requires maxErrors > 0
    ensures var i := FindKey(l.errors, KeyOf(err), 0); var appended := l.errors + [NewReport(err, now)];
      Reported(l, err, now, maxErrors).errors
      == if i < |l.errors| then l.errors[i := l.errors[i].(count := l.errors[i].count + 1, lastSeen := now)]
         else if |appended| > maxErrors then appended[1..]
         else appended
  {
  }

  lemma ClearedErrors(l: Ledger, maxAge: int, now: int)
    ensures Cleared(l, maxAge, now).errors == Kept(l.errors, now - maxAge)
  {
  }

  // ---- Resolved reports over runs ----

  /** If the report created at position `s` of the log is still stored, it is resolved. */
  ghost predicate Settled(l: Ledger, key: Key, s: nat) {
    && s < |l.log|
    && forall r :: r in l.errors && KeyOf(r.error) == key && key in l.since && l.since[key] == s ==> r.resolved
  }

  lemma SettledStep(l: Ledger, event: Event, maxErrors: int, key: Key, s: nat)
    requires maxErrors > 0 && Settled(l, key, s)
    ensures Settled(Step(l, event, maxErrors), key, s)
  {
    match event
    case Report(err, now) =>
    case Resolve(id, now) =>
    case Clear(maxAge, now) => KeptIsFilter(l.errors, now - maxAge);
  }

  lemma {:induction false} SettledOverRuns(past: seq<Event>, later: seq<Event>, maxErrors: int, key: Key, s: nat)
    requires maxErrors > 0 && Settled(Replay(past, maxErrors), key, s)
    ensures Settled(Replay(past + later, maxErrors), key, s)
  {
    if later == [] {
      assert past + later == past;
    } else {
      var before, last := later[..|later| - 1], later[|later| - 1];
      SettledOverRuns(past, before, maxErrors, key, s);
      assert past + later == past + before + [last];
      ReplaySnoc(past + before, last, maxErrors);
      SettledStep(Replay(past + before, maxErrors), last, maxErrors, key, s);
    }
  }

  /** No two reports share a key. */
  lemma OneReportPerKey(l: Ledger, maxErrors: int, i: nat, j: nat)
    requires Index(l, maxErrors) && i < |l.errors| && j < |l.errors| && i != j
    ensures KeyOf(l.errors[i].error) != KeyOf(l.errors[j].error)
  {
    assert if i < j then Precedes(l.errors[i], l.errors[j], l.since) else Precedes(l.errors[j], l.errors[i], l.since);
  }

  lemma ResolvedIsSettled(l: Ledger, id: string, now: int, maxErrors: int, i: nat)
    requires Index(l, maxErrors) && i < |l.errors| && l.errors[i].error.errorID == id
    requires forall j :: 0 <= j < i ==> l.errors[j].error.errorID != id
    ensures var key := KeyOf(l.errors[i].error);
      key in l.since && Settled(Resolved(l, id, now), key, l.since[key])
  {
    var l', key := Resolved(l, id, now), KeyOf(l.errors[i].error);
    ResolvedMeaning(l, id, now, i);
    assert Accurate(l.errors[i], l.since, l.log, l.clock);
    forall r | r in l'.errors && KeyOf(r.error) == key
      ensures r.resolved
    {
      var j :| 0 <= j < |l'.errors| && l'.errors[j] == r;
      if j != i {
        OneReportPerKey(l, maxErrors, i, j);
      }
    }
  }

  /** A clearing that reaches up to the present leaves no resolved report. */
  lemma ClearedIsUnresolved(l: Ledger, maxAge: int, now: int, maxErrors: int)
    requires Index(l, maxErrors) && l.clock <= now - maxAge
    ensures forall r :: r in Cleared(l, maxAge, now).errors ==> !r.resolved
  {
    ClearedMeaning(l, maxAge, now, maxErrors);
    assert forall r :: r in l.errors ==> Accurate(r, l.since, l.log, l.clock);
  }

  /** What was resolved once is gone after a later clearing whose cutoff is not before the latest
      event, whatever was reported and resolved in between. */
  lemma ResolvedIsCleared(past: seq<Event>, id: string, t: int, later: seq<Event>, maxAge: int, now: int,
                          maxErrors: int, i: nat)
    requires maxErrors > 0 && i < |Replay(past, maxErrors).errors|
    requires Replay(past, maxErrors).errors[i].error.errorID == id
    requires forall j :: 0 <= j < i ==> Replay(past, maxErrors).errors[j].error.errorID != id
    requires var run := past + [Resolve(id, t)] + later;
      Monotone(run) && run[|run| - 1].now <= now - maxAge
    ensures var l, run := Replay(past, maxErrors), past + [Resolve(id, t)] + later + [Clear(maxAge, now)];
      var key, l' := KeyOf(l.errors[i].error), Replay(run, maxErrors);
      && key in l.since
      && !exists r :: r in l'.errors && KeyOf(r.error) == key && key in l'.since && l'.since[key] == l.since[key]
  {
    var l, resolved, run := Replay(past, maxErrors), past + [Resolve(id, t)], past + [Resolve(id, t)] + later;
    var key := KeyOf(l.errors[i].error);
    MonotonePrefix(past, [Resolve(id, t)] + later) by {
      assert past + ([Resolve(id, t)] + later) == run;
    }
    IndexOverRuns(past, maxErrors);
    ReplaySnoc(past, Resolve(id, t), maxErrors);
    ResolvedIsSettled(l, id, t, maxErrors, i);
    SettledOverRuns(resolved, later, maxErrors, key, l.since[key]);
    IndexOverRuns(run, maxErrors);
    ReplaySnoc(run, Clear(maxAge, now), maxErrors);
    var l' := Replay(run, maxErrors);
    SettledStep(l', Clear(maxAge, now), maxErrors, key, l.since[key]);
    ClearedIsUnresolved(l', maxAge, now, maxErrors);
  }

  lemma MonotonePrefix(past: seq<Event>, later: seq<Event>)
    requires Monotone(past + later)
    ensures Monotone(past)
  {
    assert forall i :: 0 <= i < |past| ==> (past + later)[i] == past[i];
  }

  lemma {:induction false} AllKept(errors: seq<ErrorReport>, cutoff: int)
    requires forall r :: r in errors ==> !r.resolved
    ensures Kept(errors, cutoff) == errors && DroppedTotal(errors, cutoff) == 0
  {
    if errors == [] {
    } else {
      var before, last := errors[..|errors| - 1], errors[|errors| - 1];
      assert errors == before + [last];
      AllKept(before, cutoff);
    }
  }

  ghost predicate Unresolved(l: Ledger) {
    l.cleared == 0 && forall r :: r in l.errors ==> !r.resolved && r.resolutionTime == None
  }

  lemma UnresolvedStep(l: Ledger, event: Event, maxErrors: int)
    requires maxErrors > 0 && Unresolved(l) && !event.Resolve?
    ensures Unresolved(Step(l, event, maxErrors))
  {
    match event
    case Report(err, now) =>
    case Clear(maxAge, now) => AllKept(l.errors, now - maxAge);
  }

  /** Without a resolution nothing is ever resolved, and clearings clear nothing. */
  lemma {:induction false} NothingResolvedNothingCleared(events: seq<Event>, maxErrors: int)
    requires maxErrors > 0 && forall i :: 0 <= i < |events| ==> !events[i].Resolve?
    ensures Unresolved(Replay(events, maxErrors))
  {
    if events == [] {
    } else {
      var before, last := events[..|events| - 1], events[|events| - 1];
      NothingResolvedNothingCleared(before, maxErrors);
      UnresolvedStep(Replay(before, maxErrors), last, maxErrors);
    }
  }

  // ---- The object ----

  lemma ReplaySnoc(events: seq<Event>, event: Event, maxErrors: int)
    requires maxErrors > 0
    ensures Replay(events + [event], maxErrors) == Step(Replay(events, maxErrors), event, maxErrors)
  {
    assert (events + [event])[..|events|] == events;
  }

  /** The object stores what the replay of its history prescribes. Its clock readings never go
      backwards, so its store is an index of its history at any time. */
  class ErrorReporter {
    const maxErrors: int
    var errors: seq<ErrorReport>
    ghost var events: seq<Event>

    ghost predicate Valid()
      reads this
    {
      maxErrors > 0 && errors == Replay(events, maxErrors).errors && Monotone(events)
    }

    /** Not before the latest event. */
    ghost predicate NotBefore(now: int)
      reads this
    {
      0 <= now && (events != [] ==> events[|events| - 1].now <= now)
    }

    lemma StoreIsIndex()
      requires Valid()
      ensures Index(Replay(events, maxErrors), maxErrors) && errors == Replay(events, maxErrors).errors
    {
      IndexOverRuns(events, maxErrors);
    }

    constructor (maxErrors: int)
      ensures Valid() && errors == [] && events == []
      ensures this.maxErrors == if maxErrors <= 0 then 1000 else maxErrors
    {
      this.maxErrors := if maxErrors <= 0 then 1000 else maxErrors;
      errors := [];
      events := [];
    }

    method ReportError(err: Option<EnhancedError>, now: int)
      requires Valid() && (err.Some? ==> NotBefore(now))
      modifies this
      ensures Valid()
      ensures events == old(events) + (if err.Some? then [Report(err.value, now)] else [])
    {
      match err {
        case None =>
        case Some(e) =>
          ReplaySnoc(events, Report(e, now), maxErrors);
          ReportedErrors(Replay(events, maxErrors), e, now, maxErrors);
          MonotoneSnoc(events, Report(e, now));
          events := events + [Report(e, now)];
          var i := SearchKey(errors, e);
          if i < |errors| {
            errors := errors[i := errors[i].(count := errors[i].count + 1, lastSeen := now)];
            return;
          }
          errors := errors + [NewReport(e, now)];
          if |errors| > maxErrors {
            errors := errors[1..];
          }
      }
    }

    method ResolveError(errorID: string, now: int) returns (found: bool)
      requires Valid() && NotBefore(now)
      modifies this
      ensures Valid() && events == old(events) + [Resolve(errorID, now)]
      ensures found <==> exists i :: 0 <= i < |old(errors)| && old(errors)[i].error.errorID == errorID
    {
      ReplaySnoc(events, Resolve(errorID, now), maxErrors);
      MonotoneSnoc(events, Resolve(errorID, now));
      events := events + [Resolve(errorID, now)];
      var i := SearchID(errors, errorID);
      if i < |errors| {
        errors := errors[i := errors[i].(resolved := true, resolutionTime := Some(now))];
        return true;
      }
      return false;
    }

    method ClearOldErrors(maxAge: int, now: int) returns (removed: int)
      requires Valid() && NotBefore(now)
      modifies this
      ensures Valid() && events == old(events) + [Clear(maxAge, now)]
      ensures removed == |old(errors)| - |errors|
    {
      ReplaySnoc(events, Clear(maxAge, now), maxErrors);
      ClearedErrors(Replay(events, maxErrors), maxAge, now);
      MonotoneSnoc(events, Clear(maxAge, now));
      events := events + [Clear(maxAge, now)];
      errors, removed := FilterKept(errors, now - maxAge);
    }
  }

  // ---- The loops over the stored reports ----

  method SearchKey(errors: seq<ErrorReport>, e: EnhancedError) returns (i: nat)
    ensures i == FindKey(errors, KeyOf(e), 0)
  {
    i := 0;
    while i < |errors|
      invariant i <= |errors|
      invariant FindKey(errors, KeyOf(e), 0) == FindKey(errors, KeyOf(e), i)
    {
      if errors[i].error.code == e.code && errors[i].error.category == e.category
         && errors[i].error.message == e.message {
        return;
      }
      i := i + 1;
    }
  }

  method SearchID(errors: seq<ErrorReport>, id: string) returns (i: nat)
    ensures i == FindID(errors, id, 0)
  {
    i := 0;
    while i < |errors|
      invariant i <= |errors|
      invariant FindID(errors, id, 0) == FindID(errors, id, i)
    {
      if errors[i].error.errorID == id {
        return;
      }
      i := i + 1;
    }
  }

  method FilterKept(errors: seq<ErrorReport>, cutoff: int) returns (kept: seq<ErrorReport>, removed: int)
    ensures kept == Kept(errors, cutoff)
    ensures removed == |errors| - |kept|
  {
    kept, removed := [], 0;
    for i := 0 to |errors|
      invariant kept == Kept(errors[..i], cutoff)
      invariant removed == i - |kept|
    {
      assert errors[..i + 1][..i] == errors[..i];
      if !errors[i].resolved || (errors[i].resolutionTime.Some? && errors[i].resolutionTime.value > cutoff) {
        kept := kept + [errors[i]];
      } else {
        removed := removed + 1;
      }
    }
    assert errors[..|errors|] == errors;
  }
}
