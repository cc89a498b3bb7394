/** The sliding-window rate limiter of internal/ai/providers/openai.go:662-749, which forgets
    everything older than a minute, beside one that forgets nothing. */
module SlidingLimiter {
  import opened Common

  datatype Usage = Usage(timestamp: int, tokens: int)

  datatype Limits = Limits(requestsPerMin: int, tokensPerMin: int)

  datatype Decision = Accepted | TooManyRequests | TooManyTokens

  // ---- Windows of a history ----

  /** Entries newer than the cutoff. */
  function After(history: seq<Usage>, cutoff: int): (r: seq<Usage>)
    ensures |r| <= |history|
  {
    if history == [] then []
    else
      var before, last := history[..|history| - 1], history[|history| - 1];
      if last.timestamp > cutoff then After(before, cutoff) + [last] else After(before, cutoff)
  }

  /** Entries of the minute that ends at instant t. */
  function Window(history: seq<Usage>, t: int): seq<Usage> {
    if history == [] then []
    else
      var before, last := history[..|history| - 1], history[|history| - 1];
      if t - MINUTE < last.timestamp <= t then Window(before, t) + [last] else Window(before, t)
  }

  function Tokens(usage: seq<Usage>): int {
    if usage == [] then 0 else Tokens(usage[..|usage| - 1]) + usage[|usage| - 1].tokens
  }

  function Times(usage: seq<Usage>): (r: seq<int>)
    ensures |r| == |usage|
  {
    if usage == [] then [] else Times(usage[..|usage| - 1]) + [usage[|usage| - 1].timestamp]
  }

  function TimesAfter(times: seq<int>, cutoff: int): seq<int> {
    if times == [] then []
    else
      var before, last := times[..|times| - 1], times[|times| - 1];
      if last > cutoff then TimesAfter(before, cutoff) + [last] else TimesAfter(before, cutoff)
  }

  // ---- The limiter that never forgets ----

  /** Decides on the whole accepted history. */
  function Decide(limits: Limits, history: seq<Usage>, now: int, tokens: int): Decision {
    var recent := After(history, now - MINUTE);
    if |recent| >= limits.requestsPerMin then TooManyRequests
    else if tokens + Tokens(recent) > limits.tokensPerMin then TooManyTokens
    else Accepted
  }

  /** A rejected request leaves no trace. */
  function Record(limits: Limits, history: seq<Usage>, now: int, tokens: int): seq<Usage> {
    if Decide(limits, history, now, tokens).Accepted? then history + [Usage(now, tokens)] else history
  }

  // ---- Pruning ----

  lemma {:induction false} AfterAfter(history: seq<Usage>, cutoff: int, cutoff': int)
    requires cutoff <= cutoff'
    ensures After(After(history, cutoff), cutoff') == After(history, cutoff')
  {
    if history == [] {
    } else {
      var before, last := history[..|history| - 1], history[|history| - 1];
      AfterAfter(before, cutoff, cutoff');
      if last.timestamp > cutoff {
        AfterSnoc(After(before, cutoff), last, cutoff');
      }
    }
  }

  lemma {:induction false} TimesAfterTimes(usage: seq<Usage>, cutoff: int)
    ensures TimesAfter(Times(usage), cutoff) == Times(After(usage, cutoff))
  {
    if usage == [] {
    } else {
      var before, last := usage[..|usage| - 1], usage[|usage| - 1];
      TimesAfterTimes(before, cutoff);
      assert Times(usage)[..|before|] == Times(before);
      if last.timestamp > cutoff {
        TimesSnoc(After(before, cutoff), last);
      }
    }
  }

  lemma TimesSnoc(usage: seq<Usage>, u: Usage)
    ensures Times(usage + [u]) == Times(usage) + [u.timestamp]
  {
    assert (usage + [u])[..|usage|] == usage;
  }

  lemma AfterSnoc(usage: seq<Usage>, u: Usage, cutoff: int)
    ensures After(usage + [u], cutoff)
            == if u.timestamp > cutoff then After(usage, cutoff) + [u] else After(usage, cutoff)
  {
    assert (usage + [u])[..|usage|] == usage;
  }

  // ---- Safety of every window ----

  ghost predicate NoNegativeTokens(history: seq<Usage>) {
    forall i :: 0 <= i < |history| ==> 0 <= history[i].tokens
  }

  ghost predicate RequestsSafe(limits: Limits, history: seq<Usage>) {
    forall t :: |Window(history, t)| <= Max(0, limits.requestsPerMin)
  }

  ghost predicate TokensSafe(limits: Limits, history: seq<Usage>) {
    forall t :: Tokens(Window(history, t)) <= Max(0, limits.tokensPerMin)
  }

  lemma TokensSnoc(usage: seq<Usage>, u: Usage)
    ensures Tokens(usage + [u]) == Tokens(usage) + u.tokens
  {
    assert (usage + [u])[..|usage|] == usage;
  }

  lemma WindowSnoc(history: seq<Usage>, u: Usage, t: int)
    ensures Window(history + [u], t)
            == if t - MINUTE < u.timestamp <= t then Window(history, t) + [u] else Window(history, t)
  {
    assert (history + [u])[..|history|] == history;
  }

  /** The minute that ends at t holds no more than what is newer than its beginning, and a
      later beginning leaves less over. */
  lemma {:induction false} WindowWithinAfter(history: seq<Usage>, t: int, cutoff: int)
    requires cutoff <= t - MINUTE
    ensures |Window(history, t)| <= |After(history, cutoff)|
    ensures NoNegativeTokens(history) ==> 0 <= Tokens(Window(history, t)) <= Tokens(After(history, cutoff))
  {
    if history == [] {
    } else {
      var before, last := history[..|history| - 1], history[|history| - 1];
      WindowWithinAfter(before, t, cutoff);
      TokensSnoc(Window(before, t), last);
      TokensSnoc(After(before, cutoff), last);
    }
  }

  /** Up to now, what is newer than a minute is the window that ends now. */
  lemma {:induction false} AfterIsWindow(history: seq<Usage>, now: int)
    requires forall i :: 0 <= i < |history| ==> history[i].timestamp <= now
    ensures After(history, now - MINUTE) == Window(history, now)
  {
    if history == [] {
    } else {
      AfterIsWindow(history[..|history| - 1], now);
    }
  }

  /** A request is accepted exactly when the minute that ends with it stays within both
      limits. */
  lemma AcceptedIff(limits: Limits, history: seq<Usage>, now: int, tokens: int)
    requires forall i :: 0 <= i < |history| ==> history[i].timestamp <= now
    ensures var w := Window(history + [Usage(now, tokens)], now);
      Decide(limits, history, now, tokens).Accepted?
      <==> |w| <= limits.requestsPerMin && Tokens(w) <= limits.tokensPerMin
  {
    AfterIsWindow(history, now);
    WindowSnoc(history, Usage(now, tokens), now);
    TokensSnoc(Window(history, now), Usage(now, tokens));
  }

  /** The reason given for a rejection is the number of requests in the last minute if that is
      used up, and else their tokens. */
  lemma RejectedBecause(limits: Limits, history: seq<Usage>, now: int, tokens: int)
    requires forall i :: 0 <= i < |history| ==> history[i].timestamp <= now
    ensures var w, d := Window(history, now), Decide(limits, history, now, tokens);
      && (d.TooManyRequests? <==> |w| >= limits.requestsPerMin)
      && (d.TooManyTokens? <==> |w| < limits.requestsPerMin && tokens + Tokens(w) > limits.tokensPerMin)
  {
    AfterIsWindow(history, now);
  }

  /** One more accepted request keeps the window that ends at t safe: a window that ends
      before `now` does not see it, and one that ends later sees no more than the decision
      looked at. */
  lemma AcceptedKeepsWindowSafe(limits: Limits, history: seq<Usage>, now: int, tokens: int, t: int)
    requires Decide(limits, history, now, tokens).Accepted?
    ensures var h := history + [Usage(now, tokens)];
      && (|Window(history, t)| <= Max(0, limits.requestsPerMin) ==> |Window(h, t)| <= Max(0, limits.requestsPerMin))
      && ((NoNegativeTokens(history) && 0 <= tokens && Tokens(Window(history, t)) <= Max(0, limits.tokensPerMin))
          ==> Tokens(Window(h, t)) <= Max(0, limits.tokensPerMin))
  {
    var u := Usage(now, tokens);
    WindowSnoc(history, u, t);
    TokensSnoc(Window(history, t), u);
    if t >= now {
      WindowWithinAfter(history, t, now - MINUTE);
    }
  }

  lemma RecordKeepsRequestsSafe(limits: Limits, history: seq<Usage>, now: int, tokens: int)
    requires RequestsSafe(limits, history)
    ensures RequestsSafe(limits, Record(limits, history, now, tokens))
  {
    if Decide(limits, history, now, tokens).Accepted? {
      forall t
        ensures |Window(history + [Usage(now, tokens)], t)| <= Max(0, limits.requestsPerMin)
      {
        AcceptedKeepsWindowSafe(limits, history, now, tokens, t);
      }
    }
  }

  lemma RecordKeepsTokensSafe(limits: Limits, history: seq<Usage>, now: int, tokens: int)
    requires TokensSafe(limits, history) && NoNegativeTokens(history) && 0 <= tokens
    ensures TokensSafe(limits, Record(limits, history, now, tokens))
    ensures NoNegativeTokens(Record(limits, history, now, tokens))
  {
    if Decide(limits, history, now, tokens).Accepted? {
      forall t
        ensures Tokens(Window(history + [Usage(now, tokens)], t)) <= Max(0, limits.tokensPerMin)
      {
        AcceptedKeepsWindowSafe(limits, history, now, tokens, t);
      }
    }
  }

  /** No minute exceeds the limits, of tokens only if no estimate was negative. */
  ghost predicate Safe(limits: Limits, history: seq<Usage>) {
    RequestsSafe(limits, history) && (NoNegativeTokens(history) ==> TokensSafe(limits, history))
  }

  lemma RecordKeepsSafe(limits: Limits, history: seq<Usage>, now: int, tokens: int)
    requires Safe(limits, history)
    ensures Safe(limits, Record(limits, history, now, tokens))
  {
    RecordKeepsRequestsSafe(limits, history, now, tokens);
    var h := Record(limits, history, now, tokens);
    if NoNegativeTokens(h) && h != history {
      assert forall i :: 0 <= i < |history| ==> h[i] == history[i];
      assert h[|history|].tokens == tokens;
      RecordKeepsTokensSafe(limits, history, now, tokens);
    }
  }

  /** What the limiter holds: the history behind the cutoff, with the same timestamps. */
  ghost predicate Holds(usage: seq<Usage>, times: seq<int>, history: seq<Usage>, cutoff: int) {
    usage == After(history, cutoff) && times == Times(usage)
  }

  /** What is held is enough to decide on the whole history. */
  lemma HoldsDecides(limits: Limits, usage: seq<Usage>, times: seq<int>, history: seq<Usage>, now: int, tokens: int)
    requires Holds(usage, times, history, now - MINUTE)
    ensures Decide(limits, history, now, tokens)
            == if |times| >= limits.requestsPerMin then TooManyRequests
               else if tokens + Tokens(usage) > limits.tokensPerMin then TooManyTokens
               else Accepted
  {
  }

  lemma AcceptedHolds(limits: Limits, usage: seq<Usage>, times: seq<int>, history: seq<Usage>, now: int, tokens: int)
    requires Holds(usage, times, history, now - MINUTE) && Safe(limits, history)
    requires Decide(limits, history, now, tokens).Accepted?
    ensures var u := Usage(now, tokens);
      Holds(usage + [u], times + [now], history + [u], now - MINUTE) && Safe(limits, history + [u])
  {
    AfterSnoc(history, Usage(now, tokens), now - MINUTE);
    TimesSnoc(usage, Usage(now, tokens));
    RecordKeepsSafe(limits, history, now, tokens);
  }

  lemma CleanedHolds(usage: seq<Usage>, times: seq<int>, history: seq<Usage>, cutoff: int, cutoff': int)
    requires Holds(usage, times, history, cutoff) && cutoff <= cutoff'
    ensures Holds(After(usage, cutoff'), TimesAfter(times, cutoff'), history, cutoff')
  {
    AfterAfter(history, cutoff, cutoff');
    TimesAfterTimes(usage, cutoff');
  }

  // ---- Whole runs ----

  datatype Request = Request(now: int, tokens: int)

  /** The accepted requests of a run. */
  function History(limits: Limits, requests: seq<Request>): seq<Usage> {
    if requests == [] then []
    else
      var last := requests[|requests| - 1];
      Record(limits, History(limits, requests[..|requests| - 1]), last.now, last.tokens)
  }

  ghost predicate Monotone(requests: seq<Request>) {
    forall i, j :: 0 <= i < j < |requests| ==> requests[i].now <= requests[j].now
  }

  /** Over any run and at any instant, not only at the calls: the past minute saw at most
      requestsPerMin accepted requests. */
  lemma {:induction false} EveryWindowWithinRequests(limits: Limits, requests: seq<Request>)
    ensures RequestsSafe(limits, History(limits, requests))
  {
    if requests == [] {
    } else {
      var before, last := requests[..|requests| - 1], requests[|requests| - 1];
      EveryWindowWithinRequests(limits, before);
      RecordKeepsRequestsSafe(limits, History(limits, before), last.now, last.tokens);
    }
  }

  /** Likewise with the estimated tokens of those requests, when no estimate is negative. */
  lemma {:induction false} EveryWindowWithinTokens(limits: Limits, requests: seq<Request>)
    requires forall i :: 0 <= i < |requests| ==> 0 <= requests[i].tokens
    ensures TokensSafe(limits, History(limits, requests)) && NoNegativeTokens(History(limits, requests))
  {
    if requests == [] {
    } else {
      var before, last := requests[..|requests| - 1], requests[|requests| - 1];
      EveryWindowWithinTokens(limits, before);
      RecordKeepsTokensSafe(limits, History(limits, before), last.now, last.tokens);
    }
  }

  /** The answer to the k-th request of a run. */
  function Answer(limits: Limits, requests: seq<Request>, k: nat): Decision
    requires k < |requests|
  {
    Decide(limits, History(limits, requests[..k]), requests[k].now, requests[k].tokens)
  }

  /** The accepted requests of the minute that ends at t, by their answers. */
  function AcceptedIn(limits: Limits, requests: seq<Request>, t: int): seq<Usage> {
    if requests == [] then []
    else
      var k := |requests| - 1;
      var before, last := AcceptedIn(limits, requests[..k], t), requests[k];
      if Answer(limits, requests, k).Accepted? && t - MINUTE < last.now <= t
      then before + [Usage(last.now, last.tokens)]
      else before
  }

  /** What is recorded is what was accepted, so the guarantees for every window are guarantees
      about the answers. */
  lemma {:induction false} HistoryIsAnswers(limits: Limits, requests: seq<Request>, t: int)
    ensures Window(History(limits, requests), t) == AcceptedIn(limits, requests, t)
  {
    if requests == [] {
    } else {
      var before, last := requests[..|requests| - 1], requests[|requests| - 1];
      HistoryIsAnswers(limits, before, t);
      WindowSnoc(History(limits, before), Usage(last.now, last.tokens), t);
    }
  }

  ghost predicate TokensSafeFrom(limits: Limits, least: int) {
    forall requests: seq<Request> ::
      Monotone(requests) && (forall i :: 0 <= i < |requests| ==> least <= requests[i].tokens)
      ==> TokensSafe(limits, History(limits, requests))
  }

  lemma HistorySnoc(limits: Limits, requests: seq<Request>, r: Request)
    ensures History(limits, requests + [r]) == Record(limits, History(limits, requests), r.now, r.tokens)
  {
    assert (requests + [r])[..|requests|] == requests;
  }

  ghost predicate NewerThan(history: seq<Usage>, cutoff: int) {
    forall i :: 0 <= i < |history| ==> history[i].timestamp > cutoff
  }

  lemma {:induction false} AllRecent(history: seq<Usage>, cutoff: int)
    requires NewerThan(history, cutoff)
    ensures After(history, cutoff) == history
  {
    if history == [] {
    } else {
      AllRecent(history[..|history| - 1], cutoff);
    }
  }

  lemma RecentAccepted(limits: Limits, history: seq<Usage>, now: int, tokens: int)
    requires NewerThan(history, now - MINUTE)
    requires |history| < limits.requestsPerMin && tokens + Tokens(history) <= limits.tokensPerMin
    ensures Record(limits, history, now, tokens) == history + [Usage(now, tokens)]
  {
    AllRecent(history, now - MINUTE);
  }

  /** A run within one minute: its requests, the history they leave with all its tokens, and
      those tokens that the minute ending at MINUTE sees, which are all but those of instant 0. */
  datatype Trial = Trial(requests: seq<Request>, history: seq<Usage>, tokens: int, seen: int)

  ghost predicate Tried(limits: Limits, trial: Trial) {
    && History(limits, trial.requests) == trial.history
    && NewerThan(trial.history, 1 - MINUTE)
    && Tokens(trial.history) == trial.tokens
    && Tokens(Window(trial.history, MINUTE)) == trial.seen
  }

  lemma NothingTried(limits: Limits) returns (trial: Trial)
    ensures trial == Trial([], [], 0, 0) && Tried(limits, trial)
  {
    trial := Trial([], [], 0, 0);
  }

  lemma SeenSnoc(history: seq<Usage>, u: Usage)
    requires 0 <= u.timestamp <= 1
    ensures Tokens(Window(history + [u], MINUTE))
            == Tokens(Window(history, MINUTE)) + (if u.timestamp == 1 then u.tokens else 0)
  {
    WindowSnoc(history, u, MINUTE);
    TokensSnoc(Window(history, MINUTE), u);
  }

  /** One more request, at instant 0 or 1, that still fits beside all others. */
  lemma OneMoreTried(limits: Limits, trial: Trial, r: Request) returns (trial': Trial)
    requires Tried(limits, trial) && 0 <= r.now <= 1
    requires |trial.history| < limits.requestsPerMin && r.tokens + trial.tokens <= limits.tokensPerMin
    ensures trial'.requests == trial.requests + [r] && |trial'.history| == |trial.history| + 1
    ensures trial'.tokens == trial.tokens + r.tokens
    ensures trial'.seen == trial.seen + (if r.now == 1 then r.tokens else 0)
    ensures Tried(limits, trial')
  {
    var history', u := trial.history + [Usage(r.now, r.tokens)], Usage(r.now, r.tokens);
    assert History(limits, trial.requests + [r]) == history' by {
      HistorySnoc(limits, trial.requests, r);
      RecentAccepted(limits, trial.history, r.now, r.tokens);
    }
    SeenSnoc(trial.history, u);
    TokensSnoc(trial.history, u);
    assert NewerThan(history', 1 - MINUTE);
    trial' := Trial(trial.requests + [r], history', trial.tokens + r.tokens,
                    trial.seen + (if r.now == 1 then r.tokens else 0));
  }

  /** A request that gives tokens back lets the next one take more than a minute's share, and
      the window that no longer reaches back to the first shows it. */
  lemma NegativeEstimateOverdraws(limits: Limits, least: int) returns (trial: Trial)
    requires limits.requestsPerMin >= 2 && least < 0 && least < limits.tokensPerMin
    ensures Tried(limits, trial) && trial.seen == limits.tokensPerMin - least
    ensures trial.requests == [Request(0, least), Request(1, limits.tokensPerMin - least)]
  {
    trial := NothingTried(limits);
    trial := OneMoreTried(limits, trial, Request(0, least));
    trial := OneMoreTried(limits, trial, Request(1, limits.tokensPerMin - least));
  }

  lemma TwoNegativeEstimates(limits: Limits) returns (trial: Trial)
    requires limits.requestsPerMin >= 3 && limits.tokensPerMin < 0
    ensures Tried(limits, trial) && |trial.history| == 2
    ensures trial.tokens == 2 * limits.tokensPerMin && trial.seen == 0
    ensures var r := Request(0, limits.tokensPerMin); trial.requests == [r, r]
  {
    trial := NothingTried(limits);
    trial := OneMoreTried(limits, trial, Request(0, limits.tokensPerMin));
    trial := OneMoreTried(limits, trial, Request(0, limits.tokensPerMin));
  }

  /** With a negative limit, met exactly by the least estimate, it takes two such requests to
      make room for one that overdraws. */
  lemma TwoNegativeEstimatesOverdraw(limits: Limits) returns (trial: Trial)
    requires limits.requestsPerMin >= 3 && limits.tokensPerMin < 0
    ensures Tried(limits, trial) && trial.seen == -limits.tokensPerMin
    ensures var t := limits.tokensPerMin; trial.requests == [Request(0, t), Request(0, t), Request(1, -t)]
  {
    trial := TwoNegativeEstimates(limits);
    trial := OneMoreTried(limits, trial, Request(1, -limits.tokensPerMin));
  }

  // Where a negative estimate does no harm.

  /** All entries of a history are at most `most`. */
  ghost predicate AtMost(history: seq<Usage>, most: int) {
    forall i :: 0 <= i < |history| ==> history[i].tokens <= most
  }

  lemma {:induction false} WindowAtMost(history: seq<Usage>, t: int, most: int)
    requires AtMost(history, most)
    ensures most <= 0 ==> Tokens(Window(history, t)) <= 0
    ensures |Window(history, t)| <= 1 ==> Tokens(Window(history, t)) <= Max(0, most)
  {
    if history == [] {
    } else {
      var before, last := history[..|history| - 1], history[|history| - 1];
      WindowAtMost(before, t, most);
      TokensSnoc(Window(before, t), last);
      if Window(before, t) == [] {
        assert Tokens(Window(before, t)) == 0;
      }
    }
  }

  /** A limiter that accepts no second request within a minute accepts none above its limit. */
  lemma {:induction false} SingleRequests(limits: Limits, requests: seq<Request>)
    requires limits.requestsPerMin <= 1
    ensures AtMost(History(limits, requests), limits.tokensPerMin)
  {
    if requests == [] {
    } else {
      var before, last := requests[..|requests| - 1], requests[|requests| - 1];
      SingleRequests(limits, before);
      assert Tokens([]) == 0;
    }
  }

  /** A limit below every estimate accepts nothing. */
  lemma {:induction false} NothingAccepted(limits: Limits, requests: seq<Request>)
    requires forall i :: 0 <= i < |requests| ==> limits.tokensPerMin < requests[i].tokens
    ensures History(limits, requests) == []
  {
    if requests == [] {
    } else {
      NothingAccepted(limits, requests[..|requests| - 1]);
      assert Tokens([]) == 0;
    }
  }

  /** Two requests a minute cannot make up for the negative limit that the least estimate just
      meets. */
  lemma {:induction false} PairsStayNegative(limits: Limits, requests: seq<Request>)
    requires limits.requestsPerMin <= 2 && limits.tokensPerMin < 0
    requires forall i :: 0 <= i < |requests| ==> limits.tokensPerMin <= requests[i].tokens
    ensures AtMost(History(limits, requests), 0)
    ensures AtLeast(History(limits, requests), limits.tokensPerMin)
  {
    if requests == [] {
    } else {
      var before, last := requests[..|requests| - 1], requests[|requests| - 1];
      PairsStayNegative(limits, before);
      RecentPair(History(limits, before), last.now - MINUTE, limits.tokensPerMin);
    }
  }

  ghost predicate AtLeast(history: seq<Usage>, least: int) {
    forall i :: 0 <= i < |history| ==> least <= history[i].tokens
  }

  lemma {:induction false} AfterAtLeast(history: seq<Usage>, cutoff: int, least: int)
    requires AtLeast(history, least)
    ensures AtLeast(After(history, cutoff), least)
  {
    if history == [] {
    } else {
      AfterAtLeast(history[..|history| - 1], cutoff, least);
    }
  }

  lemma RecentPair(history: seq<Usage>, cutoff: int, least: int)
    requires least < 0 && AtLeast(history, least)
    ensures |After(history, cutoff)| <= 1 ==> least <= Tokens(After(history, cutoff))
  {
    AfterAtLeast(history, cutoff, least);
    var recent := After(history, cutoff);
    assert |recent| == 1 ==> Tokens(recent[..0]) == 0;
  }

  /** No estimate gives tokens back; or no second request is accepted within a minute; or none
      at all is accepted; or two requests a minute just meet a negative limit. */
  predicate TokensCannotBeOverdrawn(limits: Limits, least: int) {
    || least >= 0
    || limits.requestsPerMin <= 1
    || limits.tokensPerMin < least
    || (limits.tokensPerMin == least && limits.requestsPerMin == 2)
  }

  /** The exact condition under which no run with estimates of at least `least` overdraws the
      tokens of any minute, for every pair of limits. */
  lemma TokensSafeIff(limits: Limits, least: int)
    ensures TokensSafeFrom(limits, least) <==> TokensCannotBeOverdrawn(limits, least)
  {
    if TokensCannotBeOverdrawn(limits, least) {
      forall requests: seq<Request>
        | Monotone(requests) && (forall i :: 0 <= i < |requests| ==> least <= requests[i].tokens)
        ensures TokensSafe(limits, History(limits, requests))
      {
        NotOverdrawn(limits, least, requests);
      }
    } else {
      var trial;
      if least < limits.tokensPerMin {
        trial := NegativeEstimateOverdraws(limits, least);
      } else {
        trial := TwoNegativeEstimatesOverdraw(limits);
      }
      var requests := trial.requests;
      assert Monotone(requests) && (forall i :: 0 <= i < |requests| ==> least <= requests[i].tokens);
      assert !TokensSafe(limits, History(limits, requests));
    }
  }

  lemma NotOverdrawn(limits: Limits, least: int, requests: seq<Request>)
    requires TokensCannotBeOverdrawn(limits, least)
    requires forall i :: 0 <= i < |requests| ==> least <= requests[i].tokens
    ensures TokensSafe(limits, History(limits, requests))
  {
    if least >= 0 {
      EveryWindowWithinTokens(limits, requests);
    } else {
      forall t
        ensures Tokens(Window(History(limits, requests), t)) <= Max(0, limits.tokensPerMin)
      {
        if limits.requestsPerMin <= 1 {
          EveryWindowWithinRequests(limits, requests);
          SingleRequests(limits, requests);
          WindowAtMost(History(limits, requests), t, limits.tokensPerMin);
        } else if limits.tokensPerMin < least {
          NothingAccepted(limits, requests);
          WindowAtMost([], t, 0);
        } else {
          PairsStayNegative(limits, requests);
          WindowAtMost(History(limits, requests), t, 0);
        }
      }
    }
  }

  // ---- The object ----

  class RateLimiter {
    const limits: Limits
    var requestWindow: seq<int>
    var tokenUsage: seq<Usage>
    /** Every accepted request, and the cutoff of the latest cleaning. */
    ghost var history: seq<Usage>
    ghost var cutoff: int

    /** Both windows carry the same timestamps: those of the history behind the cutoff. No
        minute of the history exceeds the limits. */
    ghost predicate Valid()
      reads this
    {
      Holds(tokenUsage, requestWindow, history, cutoff) && Safe(limits, history)
    }

    constructor (requestsPerMin: int, tokensPerMin: int, ghost now: int)
      ensures Valid() && history == [] && cutoff == now - MINUTE
      ensures limits == Limits(requestsPerMin, tokensPerMin)
    {
      limits := Limits(requestsPerMin, tokensPerMin);
      requestWindow, tokenUsage, history := [], [], [];
      cutoff := now - MINUTE;
    }

    /** Decides as if nothing had ever been forgotten. */
    method CheckRequest(now: int, estimatedTokens: int) returns (decision: Decision)
      requires Valid() && cutoff <= now - MINUTE
      modifies this
      ensures Valid() && cutoff == now - MINUTE
      ensures decision == Decide(limits, old(history), now, estimatedTokens)
      ensures history == Record(limits, old(history), now, estimatedTokens)
    {
      var oneMinuteAgo := now - MINUTE;
      CleanOldEntries(oneMinuteAgo);
      HoldsDecides(limits, tokenUsage, requestWindow, history, now, estimatedTokens);
      if |requestWindow| >= limits.requestsPerMin {
        return TooManyRequests;
      }
      var totalTokens := AddTokens(estimatedTokens, tokenUsage);
      if totalTokens > limits.tokensPerMin {
        return TooManyTokens;
      }
      AcceptedHolds(limits, tokenUsage, requestWindow, history, now, estimatedTokens);
      requestWindow := requestWindow + [now];
      tokenUsage := tokenUsage + [Usage(now, estimatedTokens)];
      history := history + [Usage(now, estimatedTokens)];
      return Accepted;
    }

    method CleanOldEntries(newCutoff: int)
      requires Valid() && cutoff <= newCutoff
      modifies `requestWindow, `tokenUsage, `cutoff
      ensures Valid() && cutoff == newCutoff
    {
      CleanedHolds(tokenUsage, requestWindow, history, cutoff, newCutoff);
      cutoff := newCutoff;
      requestWindow := NewerTimes(requestWindow, newCutoff);
      tokenUsage := NewerUsage(tokenUsage, newCutoff);
    }
  }

  // ---- The loops ----

  method NewerTimes(times: seq<int>, cutoff: int) returns (newer: seq<int>)
    ensures newer == TimesAfter(times, cutoff)
  {
    newer := [];
    for i := 0 to |times|
      invariant newer == TimesAfter(times[..i], cutoff)
    {
      assert times[..i + 1][..i] == times[..i];
      if times[i] > cutoff {
        newer := newer + [times[i]];
      }
    }
    assert times[..|times|] == times;
  }

  method NewerUsage(usage: seq<Usage>, cutoff: int) returns (newer: seq<Usage>)
    ensures newer == After(usage, cutoff)
  {
    newer := [];
    for i := 0 to |usage|
      invariant newer == After(usage[..i], cutoff)
    {
      assert usage[..i + 1][..i] == usage[..i];
      if usage[i].timestamp > cutoff {
        newer := newer + [usage[i]];
      }
    }
    assert usage[..|usage|] == usage;
  }

  method AddTokens(initial: int, usage: seq<Usage>) returns (total: int)
    ensures total == initial + Tokens(usage)
  {
    total := initial;
    for i := 0 to |usage|
      invariant total == initial + Tokens(usage[..i])
    {
      assert usage[..i + 1][..i] == usage[..i];
      total := total + usage[i].tokens;
    }
    assert usage[..|usage|] == usage;
  }
}
