/** The circuit breaker of one partner: its open periods and what they bound. */
module Breakers {
  import opened Relay

  lemma Pow2Positive(n: nat)
    ensures Pow2(n) >= 1
  {
  }

  lemma AtLeast(x: real, p: real)
    requires x >= 0.0 && p >= 1.0
    ensures x * p >= x
  {
    assert x * p == x + x * (p - 1.0);
  }

  lemma MinBounds(base: real, p: real)
    requires base >= 0.0 && p >= 1.0
    ensures base <= Min(base * 16.0, base * p) <= base * 16.0
  {
    AtLeast(base, p);
  }

  lemma PeriodBounds(s: Settings, n: nat)
    requires s.breakSeconds >= 0.0
    ensures s.breakSeconds <= Period(s, n) <= s.breakSeconds * 16.0
  {
    Pow2Positive(n);
    MinBounds(s.breakSeconds, Pow2(n) as real);
    hide Min, Pow2;
  }

  /** What the `k`-th open period after the limit is multiplied by: doubling, up to 16. */
  function Factor(k: nat): nat {
    if k == 0 then 1 else if k == 1 then 2 else if k == 2 then 4 else if k == 3 then 8 else 16
  }

  lemma Pow2Factor(n: nat)
    ensures if n < 4 then Pow2(n) == Factor(n) else Pow2(n) >= 16
  {
    if n >= 4 {
      Pow2Positive(n - 4);
      assert Pow2(n) == 2 * (2 * (2 * (2 * Pow2(n - 4)))) by {
        assert Pow2(n) == 2 * Pow2(n - 1) && Pow2(n - 1) == 2 * Pow2(n - 2);
        assert Pow2(n - 2) == 2 * Pow2(n - 3) && Pow2(n - 3) == 2 * Pow2(n - 4);
      }
    } else {
      assert Pow2(0) == 1 && Pow2(1) == 2 && Pow2(2) == 4 && Pow2(3) == 8;
    }
  }

  lemma Scaled(b: real, x: real, y: real)
    requires b >= 0.0 && x <= y
    ensures b * x <= b * y
  {
  }

  /** The first open period is `breakSeconds`, and each next one twice the one before, up to 16 times
      `breakSeconds`. */
  lemma PeriodDoubles(s: Settings, n: nat)
    requires s.breakSeconds >= 0.0
    ensures Period(s, 0) == s.breakSeconds
    ensures Period(s, n + 1) == if 2.0 * Period(s, n) <= 16.0 * s.breakSeconds then 2.0 * Period(s, n) else 16.0 * s.breakSeconds
    ensures Period(s, n) == s.breakSeconds * Factor(n) as real
  {
    PeriodFactor(s, 0);
    PeriodFactor(s, n);
    PeriodFactor(s, n + 1);
    hide Period;
  }

  lemma PeriodFactor(s: Settings, n: nat)
    requires s.breakSeconds >= 0.0
    ensures Period(s, n) == s.breakSeconds * Factor(n) as real
  {
    Pow2Factor(n);
    Scaled(s.breakSeconds, if n < 4 then Pow2(n) as real else 16.0, if n < 4 then 16.0 else Pow2(n) as real);
    hide Pow2;
  }

  /** Each open period is `breakSeconds` times 1, 2, 4, 8 and from then on 16; from the count limit on a
      failure is not counted and opens no period. */
  lemma OpenPeriodBounds(s: Settings, failures: Failures, url: string, now: real)
    requires s.breakSeconds >= 0.0
    ensures var after := MarkFail(s, failures, url, now);
            var count := Fails(failures, url) + 1;
            && (count > CountLimit(s) ==> after == failures)
            && (count <= CountLimit(s) ==> Fails(after, url) == count)
            && (s.maxRetry <= count <= CountLimit(s) ==>
                  && now + s.breakSeconds <= after[url].until <= now + 16.0 * s.breakSeconds
                  && after[url].until == now + s.breakSeconds * Factor(count - s.maxRetry) as real)
  {
    if s.maxRetry <= Fails(failures, url) + 1 {
      hide Period;
      PeriodBounds(s, Fails(failures, url) + 1 - s.maxRetry);
      PeriodFactor(s, Fails(failures, url) + 1 - s.maxRetry);
    }
  }

  /** One dispatch to a partner that always fails: when it looks and when its post has failed. */
  datatype Attempt = Attempt(at: real, failedAt: real)

  /** The breaker and the posts made, after some attempts. */
  datatype Trial = Trial(failures: Failures, posts: seq<Attempt>)

  function TrialOf(s: Settings, url: string, attempts: seq<Attempt>): Trial {
    if attempts == [] then Trial(map[], [])
    else
      var before := TrialOf(s, url, attempts[..|attempts| - 1]);
      var a := attempts[|attempts| - 1];
      if Available(s, before.failures, url, a.at) then
        Trial(MarkFail(s, before.failures, url, a.failedAt), before.posts + [a])
      else before
  }

  /** One attempt after the other. */
  predicate Sequential(attempts: seq<Attempt>) {
    && (forall a | a in attempts :: a.at <= a.failedAt)
    && (forall i, j | 0 <= i < j < |attempts| :: attempts[i].failedAt <= attempts[j].at)
  }

  /** The first `m` open periods together. */
  function Backoff(s: Settings, m: nat): real {
    if m == 0 then 0.0
    else Backoff(s, m - 1) + Period(s, m - 1)
  }

  /** How many times `breakSeconds` they are: 2^m - 1 up to the fourth, then 16 more for each. */
  function Waits(m: nat): nat {
    if m == 0 then 0 else if m == 1 then 1 else if m == 2 then 3 else if m == 3 then 7 else 15 + 16 * (m - 4)
  }

  lemma WaitsStep(m: nat)
    requires m >= 1
    ensures Waits(m) == Waits(m - 1) + Factor(m - 1)
  {
  }

  lemma Distributes(b: real, x: real, y: real)
    ensures b * (x + y) == b * x + b * y
  {
  }

  /** Summed up, the periods double up to 16 times `breakSeconds`. */
  lemma {:induction false} BackoffWaits(s: Settings, m: nat)
    requires s.breakSeconds >= 0.0
    ensures Backoff(s, m) == s.breakSeconds * Waits(m) as real
  {
    hide Period;
    if m > 0 {
      BackoffWaits(s, m - 1);
      PeriodFactor(s, m - 1);
      WaitsStep(m);
      hide Waits, Factor;
      Distributes(s.breakSeconds, Waits(m - 1) as real, Factor(m - 1) as real);
    }
  }

  /** The failure that was counted last among the first `i`. */
  function Counted(s: Settings, i: nat): nat {
    if i <= CountLimit(s) then i else CountLimit(s)
  }

  ghost predicate SpacedByBreaker(s: Settings, posts: seq<Attempt>) {
    && (forall i | 0 <= i < |posts| :: posts[i].at <= posts[i].failedAt)
    && (forall i | 0 <= i < |posts| :: Waited(s, posts, i))
  }

  /** Post `i` waited out the period that the last counted failure opened. */
  ghost predicate Waited(s: Settings, posts: seq<Attempt>, i: nat)
    requires i < |posts|
  {
    var n := Counted(s, i);
    s.maxRetry <= n && 1 <= n ==> posts[i].at > posts[n - 1].failedAt + OpenPeriod(s, n)
  }

  ghost predicate TrialOk(s: Settings, url: string, t: Trial) {
    var n := Counted(s, |t.posts|);
    && SpacedByBreaker(s, t.posts)
    && (url in t.failures <==> n >= 1)
    && (url in t.failures ==>
          && t.failures[url].fails == n
          && (n >= s.maxRetry ==> t.failures[url].until == t.posts[n - 1].failedAt + OpenPeriod(s, n)))
  }

  lemma NextTrialOk(s: Settings, url: string, t: Trial, a: Attempt)
    requires TrialOk(s, url, t) && Available(s, t.failures, url, a.at) && a.at <= a.failedAt
    ensures TrialOk(s, url, Trial(MarkFail(s, t.failures, url, a.failedAt), t.posts + [a]))
  {
    hide Period;
    var posts := t.posts + [a];
    forall i | 0 <= i < |posts| ensures Waited(s, posts, i) {
      assert i < |t.posts| ==> Waited(s, t.posts, i);
    }
  }

  /** Against a partner that always fails, the stored count is the number of posts up to the limit,
      and each later post waited out the breaker. */
  lemma {:induction false} TrialInvariant(s: Settings, url: string, attempts: seq<Attempt>)
    requires Sequential(attempts)
    ensures TrialOk(s, url, TrialOf(s, url, attempts))
  {
    hide Period;
    if attempts != [] {
      var front, a := attempts[..|attempts| - 1], attempts[|attempts| - 1];
      assert a in attempts;
      TrialInvariant(s, url, front);
      if Available(s, TrialOf(s, url, front).failures, url, a.at) {
        NextTrialOk(s, url, TrialOf(s, url, front), a);
      }
    }
  }

  /** `m` posts beyond the first `maxRetry` take more than `wait`. */
  ghost predicate BackedOff(s: Settings, posts: seq<Attempt>, m: nat, wait: real)
    requires s.maxRetry >= 1 && m >= 1 && |posts| >= s.maxRetry + m
  {
    posts[s.maxRetry + m - 1].at > posts[s.maxRetry - 1].failedAt + wait
  }

  lemma {:induction false} BackoffElapses(s: Settings, posts: seq<Attempt>, m: nat)
    requires s.maxRetry >= 1 && 1 <= m <= FLOAT_EXPONENTS
    requires SpacedByBreaker(s, posts) && |posts| >= s.maxRetry + m
    ensures BackedOff(s, posts, m, Backoff(s, m))
  {
    var i := s.maxRetry + m - 1;
    assert Waited(s, posts, i);
    if m > 1 {
      BackoffElapses(s, posts, m - 1);
      assert posts[i - 1].at <= posts[i - 1].failedAt;
    }
  }

  /** Under sequential dispatch to a partner that always fails, `m` posts beyond the first
      `maxRetry` take more than the first `m` open periods, as long as the count can be stored:
      more than 1, 3, 7, 15 times `breakSeconds`, and 16 times more for each post after the fourth. */
  lemma BreakerBound(s: Settings, url: string, attempts: seq<Attempt>, m: nat)
    requires s.maxRetry >= 1 && 1 <= m <= FLOAT_EXPONENTS && Sequential(attempts)
    requires |TrialOf(s, url, attempts).posts| >= s.maxRetry + m
    ensures BackedOff(s, TrialOf(s, url, attempts).posts, m, Backoff(s, m))
    ensures s.breakSeconds >= 0.0 ==> BackedOff(s, TrialOf(s, url, attempts).posts, m, s.breakSeconds * Waits(m) as real)
  {
    TrialInvariant(s, url, attempts);
    BackoffElapses(s, TrialOf(s, url, attempts).posts, m);
    hide Waits, Backoff, TrialOf;
    if s.breakSeconds >= 0.0 {
      BackoffWaits(s, m);
    }
  }

  // ---- where the bound ends ----

  /** When the `i`-th of the fastest attempts is made: each waits out the breaker by `eps`. */
  function FastestAt(s: Settings, eps: real, i: nat): real {
    if i == 0 then 0.0
    else if s.maxRetry <= i <= CountLimit(s) then FastestAt(s, eps, i - 1) + OpenPeriod(s, i) + eps
    else FastestAt(s, eps, i - 1)
  }

  function Fastest(s: Settings, eps: real, n: nat): (r: seq<Attempt>)
    ensures |r| == n
  {
    seq(n, i requires 0 <= i < n => Attempt(FastestAt(s, eps, i), FastestAt(s, eps, i)))
  }

  lemma {:induction false} FastestMonotone(s: Settings, eps: real, i: nat, j: nat)
    requires s.breakSeconds >= 0.0 && eps >= 0.0 && i <= j
    ensures FastestAt(s, eps, i) <= FastestAt(s, eps, j)
  {
    if i < j {
      FastestMonotone(s, eps, i, j - 1);
      if s.maxRetry <= j <= CountLimit(s) {
        PeriodBounds(s, j - s.maxRetry);
      }
    }
  }

  lemma FastestSequential(s: Settings, eps: real, n: nat)
    requires s.breakSeconds >= 0.0 && eps >= 0.0
    ensures Sequential(Fastest(s, eps, n))
  {
    forall i, j | 0 <= i < j < n ensures Fastest(s, eps, n)[i].failedAt <= Fastest(s, eps, n)[j].at {
      FastestMonotone(s, eps, i, j);
    }
  }

  /** Every one of the fastest attempts is a post. */
  lemma {:induction false} FastestPosts(s: Settings, url: string, eps: real, n: nat)
    requires s.breakSeconds >= 0.0 && eps > 0.0 && s.maxRetry >= 1
    ensures TrialOf(s, url, Fastest(s, eps, n)).posts == Fastest(s, eps, n)
  {
    if n > 0 {
      var front, a := Fastest(s, eps, n - 1), Fastest(s, eps, n)[n - 1];
      assert Fastest(s, eps, n)[..n - 1] == front && Fastest(s, eps, n) == front + [a];
      FastestPosts(s, url, eps, n - 1);
      FastestSequential(s, eps, n - 1);
      TrialInvariant(s, url, front);
      FastestAvailable(s, url, eps, n - 1, TrialOf(s, url, front));
    }
  }

  lemma FastestAvailable(s: Settings, url: string, eps: real, n: nat, t: Trial)
    requires s.breakSeconds >= 0.0 && eps > 0.0 && s.maxRetry >= 1
    requires TrialOk(s, url, t) && t.posts == Fastest(s, eps, n)
    ensures Available(s, t.failures, url, FastestAt(s, eps, n))
  {
    hide Period, SpacedByBreaker;
    var last := Counted(s, n);
    if url in t.failures && last >= s.maxRetry {
      FastestMonotone(s, eps, last, n);
    }
  }

  lemma OneMore(n: nat, eps: real)
    ensures (n + 1) as real * eps == n as real * eps + eps
  {
  }

  lemma FastestStep(s: Settings, eps: real, m: nat)
    requires s.maxRetry >= 1 && 1 <= m <= FLOAT_EXPONENTS
    ensures FastestAt(s, eps, s.maxRetry - 1 + m) ==
            FastestAt(s, eps, s.maxRetry - 1 + (m - 1)) + (Backoff(s, m) - Backoff(s, m - 1)) + eps
  {
    hide Period;
    var i := s.maxRetry - 1 + m;
    assert s.maxRetry <= i <= CountLimit(s) && i - s.maxRetry == m - 1 && i - 1 == s.maxRetry - 1 + (m - 1);
    assert FastestAt(s, eps, i) == FastestAt(s, eps, i - 1) + OpenPeriod(s, i) + eps;
    assert Backoff(s, m) == Backoff(s, m - 1) + OpenPeriod(s, i);
  }

  /** The fastest attempts wait exactly the sum of the periods, and `eps` for each. */
  lemma {:induction false} FastestElapsed(s: Settings, eps: real, m: nat)
    requires s.maxRetry >= 1 && m <= FLOAT_EXPONENTS
    ensures FastestAt(s, eps, s.maxRetry - 1 + m) == FastestAt(s, eps, s.maxRetry - 1) + Backoff(s, m) + m as real * eps
  {
    hide Period, CountLimit;
    if m > 0 {
      FastestElapsed(s, eps, m - 1);
      OneMore(m - 1, eps);
      FastestStep(s, eps, m);
    }
  }

  lemma {:induction false} FastestRests(s: Settings, eps: real, n: nat)
    requires n >= CountLimit(s)
    ensures FastestAt(s, eps, n) == FastestAt(s, eps, CountLimit(s))
  {
    if n > CountLimit(s) {
      FastestRests(s, eps, n - 1);
    }
  }

  lemma {:induction false} BackoffGrows(s: Settings, a: nat, b: nat)
    requires s.breakSeconds >= 0.0 && a < b
    ensures Backoff(s, b) >= Backoff(s, a) + s.breakSeconds
  {
    hide Period;
    PeriodBounds(s, b - 1);
    if a < b - 1 {
      BackoffGrows(s, a, b - 1);
    }
  }

  /** Past the count limit the fastest attempts no longer wait. */
  lemma FastestTooFast(s: Settings, eps: real, m: nat)
    requires s.maxRetry >= 1 && s.breakSeconds > 0.0 && m > FLOAT_EXPONENTS && 1024.0 * eps == s.breakSeconds
    ensures FastestAt(s, eps, s.maxRetry + m - 1) <= FastestAt(s, eps, s.maxRetry - 1) + Backoff(s, m)
  {
    hide Period, Backoff, FastestAt;
    var most: nat := FLOAT_EXPONENTS;
    FastestElapsed(s, eps, most);
    FastestRests(s, eps, s.maxRetry + m - 1);
    BackoffGrows(s, most, m);
  }

  /** More periods than the count can go through are not waited out. */
  lemma BoundEnds(s: Settings, url: string, m: nat) returns (attempts: seq<Attempt>)
    requires s.maxRetry >= 1 && s.breakSeconds > 0.0 && m > FLOAT_EXPONENTS
    ensures Sequential(attempts) && |TrialOf(s, url, attempts).posts| >= s.maxRetry + m
    ensures !BackedOff(s, TrialOf(s, url, attempts).posts, m, Backoff(s, m))
  {
    hide Period, Backoff, FastestAt, TrialOf, Sequential;
    var eps := s.breakSeconds / 1024.0;
    attempts := Fastest(s, eps, s.maxRetry + m);
    FastestSequential(s, eps, s.maxRetry + m);
    FastestPosts(s, url, eps, s.maxRetry + m);
    FastestTooFast(s, eps, m);
    assert attempts[s.maxRetry + m - 1].at == FastestAt(s, eps, s.maxRetry + m - 1);
  }

  /** The bound on `m` periods holds in every sequential run exactly while `m` is at most 1024. */
  lemma BreakerBoundIff(s: Settings, url: string, m: nat)
    requires s.maxRetry >= 1 && m >= 1 && s.breakSeconds > 0.0
    ensures m <= 1024 <==>
            forall attempts | Sequential(attempts) && |TrialOf(s, url, attempts).posts| >= s.maxRetry + m ::
              BackedOff(s, TrialOf(s, url, attempts).posts, m, s.breakSeconds * Waits(m) as real)
  {
    hide Waits, Backoff, TrialOf, Sequential;
    BackoffWaits(s, m);
    if m <= 1024 {
      forall attempts | Sequential(attempts) && |TrialOf(s, url, attempts).posts| >= s.maxRetry + m
        ensures BackedOff(s, TrialOf(s, url, attempts).posts, m, s.breakSeconds * Waits(m) as real)
      {
        BreakerBound(s, url, attempts, m);
      }
    } else {
      var attempts := BoundEnds(s, url, m);
    }
  }
}
