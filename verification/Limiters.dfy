// The in-process limiters of src/core/request_limit.py and src/core/rate_limit.py. One call is
// one atomic step, seconds are reals, and the clock never goes back.
module Limiters {
  import opened Wrappers

  function Max(a: real, b: real): real { if a < b then b else a }
  function Least(a: real, b: real): real { if b < a then b else a }

  // ================ Sliding window ================

  // The deque of admissions, oldest first.
  function DropExpired(requests: seq<real>, cutoff: real): seq<real> {
    if requests != [] && requests[0] <= cutoff then DropExpired(requests[1..], cutoff) else requests
  }

  function Ask(budget: Positive, window: Duration, requests: seq<real>, now: real): (seq<real>, bool, real) {
    var live := DropExpired(requests, now - window);
    if |live| >= budget then (live, false, Max(window - (now - live[0]), 0.0)) else (live + [now], true, 0.0)
  }

  predicate Ordered(s: seq<real>) { forall i, j :: 0 <= i < j < |s| ==> s[i] <= s[j] }

  // The times admitted by a limiter in state `requests` out of the calls at `times`.
  function Admitted(budget: Positive, window: Duration, requests: seq<real>, times: seq<real>): seq<real>
    decreases |times|
  {
    if times == [] then []
    else
      var (after, ok, _) := Ask(budget, window, requests, times[0]);
      (if ok then [times[0]] else []) + Admitted(budget, window, after, times[1..])
  }

  // Any `budget + 1` admissions in a row span at least the window.
  predicate Spread(budget: Positive, window: Duration, admitted: seq<real>) {
    forall i :: 0 <= i && i + budget < |admitted| ==> admitted[i] + window <= admitted[i + budget]
  }

  lemma {:induction false} DropIsSuffix(requests: seq<real>, cutoff: real)
    ensures var live := DropExpired(requests, cutoff);
            && |live| <= |requests| && live == requests[|requests| - |live|..]
            && (forall i :: 0 <= i < |requests| - |live| ==> requests[i] <= cutoff)
            && (live != [] ==> live[0] > cutoff)
  {
    if requests != [] && requests[0] <= cutoff { DropIsSuffix(requests[1..], cutoff); }
  }

  // `log` is everything admitted so far; the deque holds its end, and what left it is expired.
  predicate Remembers(budget: Positive, window: Duration, log: seq<real>, requests: seq<real>, now: real) {
    && |requests| <= budget && |requests| <= |log| && requests == log[|log| - |requests|..]
    && Ordered(log) && (log != [] ==> log[|log| - 1] <= now)
    && (forall i :: 0 <= i < |log| - |requests| ==> log[i] <= now - window)
  }

  lemma DropKeepsLog(budget: Positive, window: Duration, log: seq<real>, requests: seq<real>, was: real, now: real)
    requires Remembers(budget, window, log, requests, was) && was <= now
    ensures Remembers(budget, window, log, DropExpired(requests, now - window), now)
  {
    hide Ordered, DropExpired;
    DropIsSuffix(requests, now - window);
    var live := DropExpired(requests, now - window);
    var out := |log| - |requests|;
    assert live == log[|log| - |live|..];
    forall i | 0 <= i < |log| - |live| ensures log[i] <= now - window {
      if i >= out { assert requests[i - out] == log[i]; }
    }
  }

  lemma OrderedAppend(log: seq<real>, now: real)
    requires Ordered(log) && (log != [] ==> log[|log| - 1] <= now)
    ensures Ordered(log + [now])
  {
    var longer := log + [now];
    forall i, j | 0 <= i < j < |longer| ensures longer[i] <= longer[j] {
      if j == |log| { assert log[i] <= log[|log| - 1]; }
    }
  }

  lemma SpreadAppend(budget: Positive, window: Duration, log: seq<real>, now: real)
    requires Spread(budget, window, log) && (|log| >= budget ==> log[|log| - budget] + window <= now)
    ensures Spread(budget, window, log + [now])
  {
    var longer := log + [now];
    forall i | 0 <= i && i + budget < |longer| ensures longer[i] + window <= longer[i + budget] {
      if i + budget < |log| { assert log[i] + window <= log[i + budget]; }
    }
  }

  lemma AppendKeepsLog(budget: Positive, window: Duration, log: seq<real>, requests: seq<real>, now: real)
    requires Remembers(budget, window, log, requests, now) && |requests| < budget
    ensures Remembers(budget, window, log + [now], requests + [now], now)
    ensures Spread(budget, window, log) ==> Spread(budget, window, log + [now])
  {
    hide Ordered, Spread;
    OrderedAppend(log, now);
    if Spread(budget, window, log) { SpreadAppend(budget, window, log, now); }
    assert requests + [now] == (log + [now])[|log| - |requests|..];
  }

  lemma AskKeepsLog(budget: Positive, window: Duration, log: seq<real>, requests: seq<real>, was: real, now: real)
    requires Remembers(budget, window, log, requests, was) && was <= now && Spread(budget, window, log)
    ensures var (after, ok, _) := Ask(budget, window, requests, now);
            var longer := log + if ok then [now] else [];
            Remembers(budget, window, longer, after, now) && Spread(budget, window, longer)
  {
    assert log + [] == log;
    hide Remembers, Spread, DropExpired;
    DropKeepsLog(budget, window, log, requests, was, now);
    var live := DropExpired(requests, now - window);
    if |live| < budget { AppendKeepsLog(budget, window, log, live, now); }
  }

  lemma LogIsOrdered(budget: Positive, window: Duration, log: seq<real>, requests: seq<real>, now: real)
    requires Remembers(budget, window, log, requests, now)
    ensures Ordered(log)
  {}

  lemma Regroup(a: seq<real>, b: seq<real>, c: seq<real>)
    ensures a + (b + c) == (a + b) + c
  {}

  // No call comes before the one before it, nor before `start`.
  predicate From(start: real, times: seq<real>)
    decreases |times|
  {
    times == [] || (start <= times[0] && From(times[0], times[1..]))
  }

  lemma {:induction false} RunKeepsSpread(budget: Positive, window: Duration, log: seq<real>, requests: seq<real>,
                                          was: real, times: seq<real>)
    requires Remembers(budget, window, log, requests, was) && Spread(budget, window, log) && From(was, times)
    ensures Spread(budget, window, log + Admitted(budget, window, requests, times))
    ensures Ordered(log + Admitted(budget, window, requests, times))
    decreases |times|
  {
    hide Spread, Ask, Ordered, Remembers;
    if times == [] {
      assert log + [] == log;
      LogIsOrdered(budget, window, log, requests, was);
    } else {
      AskKeepsLog(budget, window, log, requests, was, times[0]);
      var (after, ok, _) := Ask(budget, window, requests, times[0]);
      var more := if ok then [times[0]] else [];
      Regroup(log, more, Admitted(budget, window, after, times[1..]));
      RunKeepsSpread(budget, window, log + more, after, times[0], times[1..]);
    }
  }

  // In every run of a new limiter, any window of the configured length, open at either end, holds
  // at most `budget` admissions.
  lemma WindowBound(budget: Positive, window: Duration, start: real, times: seq<real>, a: real, i: nat, j: nat)
    requires From(start, times)
    requires var log := Admitted(budget, window, [], times);
             i <= j < |log| && ((a <= log[i] && log[j] < a + window) || (a < log[i] && log[j] <= a + window))
    ensures j - i + 1 <= budget
  {
    hide Admitted, Spread, Ordered, Remembers, From;
    var log := Admitted(budget, window, [], times);
    NewLimiter(budget, window, start);
    RunKeepsSpread(budget, window, [], [], start, times);
    assert [] + log == log;
    if j - i >= budget { SpreadFrom(budget, window, log, i, j); }
  }

  lemma NewLimiter(budget: Positive, window: Duration, start: real)
    ensures Remembers(budget, window, [], [], start) && Spread(budget, window, [])
  {}

  lemma SpreadFrom(budget: Positive, window: Duration, log: seq<real>, i: nat, j: nat)
    requires Spread(budget, window, log) && Ordered(log) && i + budget <= j < |log|
    ensures log[i] + window <= log[j]
  {
    var k := j - budget;
    assert log[k] + window <= log[k + budget];
    assert i < k ==> log[i] <= log[k];
  }

  // A call is admitted exactly when the budget-th last admission is a whole window old, or there are
  // not that many.
  predicate HasRoom(budget: Positive, window: Duration, log: seq<real>, now: real) {
    |log| < budget || log[|log| - budget] + window <= now
  }

  lemma AskIff(budget: Positive, window: Duration, log: seq<real>, requests: seq<real>, was: real, now: real)
    requires Remembers(budget, window, log, requests, was) && was <= now
    ensures Ask(budget, window, requests, now).1 <==> HasRoom(budget, window, log, now)
  {
    hide DropExpired;
    DropIsSuffix(requests, now - window);
    var live := DropExpired(requests, now - window);
    if |log| >= budget {
      var at := log[|log| - budget];
      if |live| >= budget {
        assert live[0] == requests[|requests| - |live|] == log[|log| - |live|];
      } else if |requests| == budget {
        assert requests[0] == log[|log| - |requests|] == at;
      }
    }
  }

  lemma {:induction false} RunFollows(budget: Positive, window: Duration, log: seq<real>, requests: seq<real>,
                                      was: real, times: seq<real>, k: nat)
    requires Remembers(budget, window, log, requests, was) && Spread(budget, window, log) && From(was, times) && k < |times|
    ensures var before := log + Admitted(budget, window, requests, times[..k]);
            log + Admitted(budget, window, requests, times[..k + 1])
            == if HasRoom(budget, window, before, times[k]) then before + [times[k]] else before
    decreases k
  {
    hide Spread, Ask, Remembers, HasRoom;
    AskKeepsLog(budget, window, log, requests, was, times[0]);
    var (after, ok, _) := Ask(budget, window, requests, times[0]);
    var more := if ok then [times[0]] else [];
    assert times[..k + 1][0] == times[0] && times[..k + 1][1..] == times[1..][..k];
    Regroup(log, more, Admitted(budget, window, after, times[1..][..k]));
    if k == 0 {
      AskIff(budget, window, log, requests, was, times[0]);
      assert times[..0] == [] && log + [] == log && times[1..][..0] == [] && more + [] == more;
    } else {
      RunFollows(budget, window, log + more, after, times[0], times[1..], k - 1);
      assert times[..k][0] == times[0] && times[..k][1..] == times[1..][..k - 1];
      Regroup(log, more, Admitted(budget, window, after, times[1..][..k - 1]));
    }
  }

  // In every run of a new limiter, call after call.
  lemma AdmitsIff(budget: Positive, window: Duration, start: real, times: seq<real>, k: nat)
    requires From(start, times) && k < |times|
    ensures var log := Admitted(budget, window, [], times[..k]);
            Admitted(budget, window, [], times[..k + 1])
            == if |log| < budget || log[|log| - budget] + window <= times[k] then log + [times[k]] else log
  {
    hide Admitted, Spread, Remembers, From;
    NewLimiter(budget, window, start);
    RunFollows(budget, window, [], [], start, times, k);
    assert forall s: seq<real> :: [] + s == s;
  }

  // A denied caller is told exactly when the next call will be admitted, and denials on the way
  // name the same moment.
  lemma RetryIsExact(budget: Positive, window: Duration, requests: seq<real>, now: real, later: real)
    requires |requests| <= budget && now <= later && !Ask(budget, window, requests, now).1
    ensures var (after, _, retry) := Ask(budget, window, requests, now);
            var (_, ok, again) := Ask(budget, window, after, later);
            && retry > 0.0 && (ok <==> later >= now + retry)
            && (!ok ==> later + again == now + retry)
  {
    hide DropExpired;
    DropIsSuffix(requests, now - window);
    var live := DropExpired(requests, now - window);
    DropIsSuffix(live, later - window);
    var still := DropExpired(live, later - window);
    assert |still| < |live| ==> live[0] <= later - window;
  }

  // RequestWindowLimiter.
  class RequestWindow {
    const budget: Positive
    const window: Duration
    var requests: seq<real>

    constructor (budget: Positive, window: Duration)
      ensures this.budget == budget && this.window == window && requests == []
    {
      this.budget, this.window, requests := budget, window, [];
    }

    method Allow(now: real) returns (ok: bool, retryAfter: real)
      modifies this`requests
      ensures (requests, ok, retryAfter) == Ask(budget, window, old(requests), now)
    {
      var cutoff := now - window;
      while requests != [] && requests[0] <= cutoff
        invariant DropExpired(requests, cutoff) == DropExpired(old(requests), cutoff)
        decreases |requests|
      {
        requests := requests[1..];
      }
      if |requests| >= budget { return false, Max(window - (now - requests[0]), 0.0); }
      requests := requests + [now];
      return true, 0.0;
    }
  }

  // ================ Token buckets ================

  datatype Bucket = Bucket(tokens: real, updated: real)
  datatype Call = Call(at: real, cost: real)

  // Tokens at `now`: refilled at `rate` a second, never above `cap`.
  function Refilled(cap: real, rate: real, b: Bucket, now: real): real {
    Least(cap, b.tokens + Max(now - b.updated, 0.0) * rate)
  }

  function Take(cap: real, rate: real, b: Bucket, c: Call): (Bucket, bool) {
    var tokens := Refilled(cap, rate, b, c.at);
    if tokens < c.cost then (Bucket(tokens, c.at), false) else (Bucket(tokens - c.cost, c.at), true)
  }

  function After(cap: real, rate: real, b: Bucket, calls: seq<Call>): Bucket
    decreases |calls|
  {
    if calls == [] then b else After(cap, rate, Take(cap, rate, b, calls[0]).0, calls[1..])
  }

  // The total cost of the calls that were granted.
  function Spent(cap: real, rate: real, b: Bucket, calls: seq<Call>): real
    decreases |calls|
  {
    if calls == [] then 0.0
    else
      var (next, ok) := Take(cap, rate, b, calls[0]);
      (if ok then calls[0].cost else 0.0) + Spent(cap, rate, next, calls[1..])
  }

  predicate Proper(cap: real, b: Bucket) { 0.0 <= b.tokens <= cap }

  predicate InOrder(start: real, calls: seq<Call>)
    decreases |calls|
  {
    calls == [] || (start <= calls[0].at && 0.0 <= calls[0].cost && InOrder(calls[0].at, calls[1..]))
  }

  lemma TakeProper(cap: real, rate: real, b: Bucket, c: Call)
    requires Proper(cap, b) && rate >= 0.0 && b.updated <= c.at && 0.0 <= c.cost
    ensures var (next, ok) := Take(cap, rate, b, c);
            && Proper(cap, next) && next.updated == c.at
            && (ok <==> c.cost <= cap && c.cost <= b.tokens + (c.at - b.updated) * rate)
            && next.tokens + (if ok then c.cost else 0.0) + Spilled(cap, rate, b, c.at) == b.tokens + (c.at - b.updated) * rate
            && next.tokens + (if ok then c.cost else 0.0) <= cap
            && Spilled(cap, rate, b, c.at) >= 0.0
  {
    assert (c.at - b.updated) * rate >= 0.0;
  }

  // What a full bucket does not take of its refill.
  function Spilled(cap: real, rate: real, b: Bucket, now: real): real {
    var offered := b.tokens + (now - b.updated) * rate;
    if offered > cap then offered - cap else 0.0
  }

  function Overflow(cap: real, rate: real, b: Bucket, calls: seq<Call>): (spilled: real)
    decreases |calls|
  {
    if calls == [] then 0.0
    else Spilled(cap, rate, b, calls[0].at) + Overflow(cap, rate, Take(cap, rate, b, calls[0]).0, calls[1..])
  }

  // Tokens are conserved: what was spent, what is left and what a full bucket refused are exactly the
  // start and the refills.
  lemma {:induction false} TokensConserved(cap: real, rate: real, b: Bucket, calls: seq<Call>)
    requires Proper(cap, b) && rate >= 0.0 && InOrder(b.updated, calls)
    ensures var end := After(cap, rate, b, calls);
            && Proper(cap, end) && b.updated <= end.updated
            && Spent(cap, rate, b, calls) + end.tokens + Overflow(cap, rate, b, calls)
               == b.tokens + (end.updated - b.updated) * rate
            && Overflow(cap, rate, b, calls) >= 0.0
    decreases |calls|
  {
    hide Take, Spilled;
    if calls != [] {
      var next := Take(cap, rate, b, calls[0]).0;
      TakeProper(cap, rate, b, calls[0]);
      TokensConserved(cap, rate, next, calls[1..]);
      var end := After(cap, rate, b, calls);
      assert (end.updated - b.updated) * rate == (end.updated - next.updated) * rate + (next.updated - b.updated) * rate;
    }
  }

  // From the first call of a stretch on, at most `cap + rate * d` is granted in `d` seconds.
  lemma IntervalBound(cap: real, rate: real, b: Bucket, calls: seq<Call>)
    requires Proper(cap, b) && rate >= 0.0 && InOrder(b.updated, calls) && calls != []
    ensures var d := After(cap, rate, b, calls).updated - calls[0].at;
            d >= 0.0 && Spent(cap, rate, b, calls) <= cap + rate * d
  {
    hide Take, Spilled, Overflow;
    var next := Take(cap, rate, b, calls[0]).0;
    TakeProper(cap, rate, b, calls[0]);
    TokensConserved(cap, rate, next, calls[1..]);
    var end := After(cap, rate, b, calls);
    assert end == After(cap, rate, next, calls[1..]);
    var refill := (end.updated - next.updated) * rate;
    assert Spent(cap, rate, next, calls[1..]) <= next.tokens + refill;
  }

  // And so for the calls from number `i` on of any longer run.
  lemma {:induction false} IntervalInRun(cap: real, rate: real, b: Bucket, calls: seq<Call>, i: nat)
    requires Proper(cap, b) && rate >= 0.0 && InOrder(b.updated, calls) && i < |calls|
    ensures var before := After(cap, rate, b, calls[..i]);
            Spent(cap, rate, before, calls[i..]) <= cap + rate * (After(cap, rate, before, calls[i..]).updated - calls[i].at)
    decreases i
  {
    hide Take, Spent;
    if i == 0 {
      assert calls[0..] == calls;
      IntervalBound(cap, rate, b, calls);
    } else {
      var next := Take(cap, rate, b, calls[0]).0;
      TakeProper(cap, rate, b, calls[0]);
      IntervalInRun(cap, rate, next, calls[1..], i - 1);
      assert calls[1..][..i - 1] == calls[..i][1..] && calls[1..][i - 1..] == calls[i..];
    }
  }

  function RetryAfter(rate: real, tokens: real, cost: real): real
    requires rate > 0.0
  {
    Max((cost - tokens) / rate, 0.0)
  }

  // The advertised delay is the earliest at which the same request passes, while nothing else does.
  lemma BucketRetryIsExact(cap: real, rate: real, b: Bucket, c: Call, later: real)
    requires rate > 0.0 && c.cost <= cap && c.at <= later && !Take(cap, rate, b, c).1
    ensures var (next, _) := Take(cap, rate, b, c);
            Take(cap, rate, next, Call(later, c.cost)).1 <==> later >= c.at + RetryAfter(rate, next.tokens, c.cost)
  {
    var next := Take(cap, rate, b, c).0;
    var wait, retry := later - c.at, (c.cost - next.tokens) / rate;
    assert retry * rate == c.cost - next.tokens;
    if wait >= retry {
      assert (wait - retry) * rate >= 0.0;
    } else {
      assert (retry - wait) * rate > 0.0;
    }
  }

  // TokenBudgetLimiter, from 60 tokens a minute up to any budget.
  class TokenBudget {
    const perMinute: Positive
    var bucket: Bucket

    constructor (perMinute: Positive, now: real)
      ensures this.perMinute == perMinute && bucket == Bucket(perMinute as real, now)
    {
      this.perMinute, bucket := perMinute, Bucket(perMinute as real, now);
    }

    function Rate(): (r: real)
      ensures r > 0.0
    {
      perMinute as real / 60.0
    }

    // Requests for nothing are an error; requests above the whole budget are always refused.
    method Allow(estimated: int, now: real) returns (r: Result<(bool, real)>)
      modifies this`bucket
      ensures r.Error? <==> estimated <= 0
      ensures r.Error? || estimated > perMinute ==> bucket == old(bucket)
      ensures estimated > perMinute ==> r == Ok((false, 60.0))
      ensures 0 < estimated <= perMinute ==>
                var (next, ok) := Take(perMinute as real, Rate(), old(bucket), Call(now, estimated as real));
                bucket == next && r == Ok((ok, if ok then 0.0 else RetryAfter(Rate(), next.tokens, estimated as real)))
    {
      if estimated <= 0 { return Error("estimate"); }
      if estimated > perMinute { return Ok((false, 60.0)); }
      var elapsed := Max(now - bucket.updated, 0.0);
      bucket := Bucket(Least(perMinute as real, bucket.tokens + elapsed * Rate()), now);
      if bucket.tokens < estimated as real {
        return Ok((false, RetryAfter(Rate(), bucket.tokens, estimated as real)));
      }
      bucket := bucket.(tokens := bucket.tokens - estimated as real);
      return Ok((true, 0.0));
    }
  }

  // ---- One bucket a scope ----

  datatype Visit = Visit(scope: string, at: real)

  function BucketOf(buckets: map<string, Bucket>, burst: nat, v: Visit): Bucket {
    if v.scope in buckets then buckets[v.scope] else Bucket(burst as real, v.at)
  }

  function Visiting(buckets: map<string, Bucket>, perMinute: nat, burst: nat, v: Visit): (map<string, Bucket>, bool) {
    var (next, ok) := Take(burst as real, perMinute as real / 60.0, BucketOf(buckets, burst, v), Call(v.at, 1.0));
    (buckets[v.scope := next], ok)
  }

  function VisitAll(buckets: map<string, Bucket>, perMinute: nat, burst: nat, visits: seq<Visit>): map<string, Bucket>
    decreases |visits|
  {
    if visits == [] then buckets else VisitAll(Visiting(buckets, perMinute, burst, visits[0]).0, perMinute, burst, visits[1..])
  }

  function CallsOf(scope: string, visits: seq<Visit>): seq<Call> {
    if visits == [] then []
    else (if visits[0].scope == scope then [Call(visits[0].at, 1.0)] else []) + CallsOf(scope, visits[1..])
  }

  // A scope's bucket depends on that scope's own calls only.
  lemma {:induction false} ScopesAreIndependent(buckets: map<string, Bucket>, perMinute: nat, burst: nat,
                                                visits: seq<Visit>, scope: string)
    requires scope in buckets
    ensures scope in VisitAll(buckets, perMinute, burst, visits)
    ensures VisitAll(buckets, perMinute, burst, visits)[scope]
         == After(burst as real, perMinute as real / 60.0, buckets[scope], CallsOf(scope, visits))
    decreases |visits|
  {
    hide Take;
    if visits != [] {
      var next := Visiting(buckets, perMinute, burst, visits[0]).0;
      ScopesAreIndependent(next, perMinute, burst, visits[1..], scope);
      var rest := CallsOf(scope, visits[1..]);
      if visits[0].scope == scope {
        assert ([Call(visits[0].at, 1.0)] + rest)[1..] == rest;
      } else {
        assert [] + rest == rest;
      }
    }
  }

  // A scope seen for the first time starts with the whole burst, and no other scope notices.
  lemma NewScope(buckets: map<string, Bucket>, perMinute: nat, burst: nat, v: Visit)
    requires v.scope !in buckets
    ensures var (next, ok) := Visiting(buckets, perMinute, burst, v);
            && (ok <==> burst >= 1)
            && next[v.scope] == Bucket(burst as real - (if ok then 1.0 else 0.0), v.at)
            && next == buckets[v.scope := next[v.scope]]
  {}

  // How many of `scope`'s visits are admitted.
  function Admissions(buckets: map<string, Bucket>, perMinute: nat, burst: nat, visits: seq<Visit>, scope: string): nat
    decreases |visits|
  {
    if visits == [] then 0
    else
      var (next, ok) := Visiting(buckets, perMinute, burst, visits[0]);
      (if ok && visits[0].scope == scope then 1 else 0) + Admissions(next, perMinute, burst, visits[1..], scope)
  }

  lemma {:induction false} AdmissionsSpend(buckets: map<string, Bucket>, perMinute: nat, burst: nat,
                                           visits: seq<Visit>, scope: string)
    requires scope in buckets
    ensures Admissions(buckets, perMinute, burst, visits, scope) as real
         == Spent(burst as real, perMinute as real / 60.0, buckets[scope], CallsOf(scope, visits))
    decreases |visits|
  {
    hide Take;
    if visits != [] {
      AdmissionsSpend(Visiting(buckets, perMinute, burst, visits[0]).0, perMinute, burst, visits[1..], scope);
      var rest := CallsOf(scope, visits[1..]);
      if visits[0].scope == scope {
        assert ([Call(visits[0].at, 1.0)] + rest)[1..] == rest;
      } else {
        assert [] + rest == rest;
      }
    }
  }

  // Over a stretch of `d` seconds between a scope's visits, at most burst + perMinute * d / 60 pass,
  // whatever other scopes do meanwhile.
  lemma ScopeBound(buckets: map<string, Bucket>, perMinute: nat, burst: nat, visits: seq<Visit>, scope: string)
    requires visits != [] && visits[0].scope == scope
    requires var b := BucketOf(buckets, burst, visits[0]);
             Proper(burst as real, b) && InOrder(b.updated, CallsOf(scope, visits))
    ensures var end := VisitAll(buckets, perMinute, burst, visits);
            && scope in end
            && Admissions(buckets, perMinute, burst, visits, scope) as real
               <= burst as real + perMinute as real / 60.0 * (end[scope].updated - visits[0].at)
  {
    hide Take, Spent, After, InOrder;
    var known := buckets[scope := BucketOf(buckets, burst, visits[0])];
    var (next, _) := Take(burst as real, perMinute as real / 60.0, known[scope], Call(visits[0].at, 1.0));
    assert known[scope := next] == buckets[scope := next];
    AdmissionsSpend(known, perMinute, burst, visits, scope);
    ScopesAreIndependent(known, perMinute, burst, visits, scope);
    IntervalBound(burst as real, perMinute as real / 60.0, known[scope], CallsOf(scope, visits));
  }

  // TenantRateLimiter; `remaining` is the whole tokens left.
  class TenantRate {
    var buckets: map<string, Bucket>

    constructor ()
      ensures buckets == map[]
    {
      buckets := map[];
    }

    method Allow(scope: string, perMinute: nat, burst: nat, now: real) returns (ok: bool, remaining: int)
      requires forall s :: s in buckets ==> 0.0 <= buckets[s].tokens
      modifies this`buckets
      ensures (buckets, ok) == Visiting(old(buckets), perMinute, burst, Visit(scope, now))
      ensures forall s :: s in buckets ==> 0.0 <= buckets[s].tokens
      ensures scope in buckets && 0 <= remaining <= burst
      ensures remaining as real <= buckets[scope].tokens < remaining as real + 1.0
    {
      var rate := perMinute as real / 60.0;
      var bucket := if scope in buckets then buckets[scope] else Bucket(burst as real, now);
      var elapsed := Max(now - bucket.updated, 0.0);
      assert elapsed * rate >= 0.0;
      ghost var was := bucket;
      bucket := Bucket(Least(burst as real, bucket.tokens + elapsed * rate), now);
      assert bucket.tokens == Refilled(burst as real, rate, was, now);
      ok := bucket.tokens >= 1.0;
      if ok { bucket := bucket.(tokens := bucket.tokens - 1.0); }
      buckets := buckets[scope := bucket];
      remaining := bucket.tokens.Floor;
    }
  }
}
