/** The sliding-window rate limiter and what it admits over whole runs. */
module RateLimit {
  import opened Results

  datatype Hit = Hit(bucket: string, at: real)

  datatype Decision = Decision(allowed: bool, count: nat, limit: nat, retryAfter: nat)

  /** `limit` and `window` are at least 1: the constructor raises smaller values to 1. */
  datatype Config = Config(limit: nat, window: nat) {
    predicate Valid() {
      limit >= 1 && window >= 1
    }
  }

  // ---- the three queries ----

  /** The rows left by `DELETE ... WHERE hit_at < cutoff`. */
  function From(hits: seq<Hit>, cutoff: real): seq<Hit> {
    if hits == [] then []
    else
      var last := hits[|hits| - 1];
      From(hits[..|hits| - 1], cutoff) + if last.at < cutoff then [] else [last]
  }

  /** The rows of one bucket, oldest insertion first. */
  function Of(hits: seq<Hit>, bucket: string): seq<Hit> {
    if hits == [] then []
    else
      var last := hits[|hits| - 1];
      Of(hits[..|hits| - 1], bucket) + if last.bucket == bucket then [last] else []
  }

  function Count(hits: seq<Hit>, bucket: string): nat {
    |Of(hits, bucket)|
  }

  /** `MIN(hit_at)`. */
  function Oldest(hits: seq<Hit>): real
    requires hits != []
  {
    var last := hits[|hits| - 1].at;
    if |hits| == 1 then last
    else
      var rest := Oldest(hits[..|hits| - 1]);
      if last < rest then last else rest
  }

  /** Python's `int` on a number: truncation toward zero. */
  function Truncate(x: real): int {
    if x >= 0.0 then x.Floor else -((-x).Floor)
  }

  function RetryAfter(oldest: real, window: nat, now: real): nat {
    var wait := Truncate(oldest + window as real - now + 0.999);
    if wait < 1 then 1 else wait
  }

  /** The rows of `bucket` in the window that ends at `now`. */
  function Recent(c: Config, hits: seq<Hit>, bucket: string, now: real): seq<Hit> {
    Of(From(hits, now - c.window as real), bucket)
  }

  predicate Admits(c: Config, hits: seq<Hit>, bucket: string, now: real) {
    |Recent(c, hits, bucket, now)| < c.limit
  }

  /** The answer, given the rows in the window. */
  function DecisionOn(c: Config, recent: seq<Hit>, now: real): Decision {
    if |recent| < c.limit then Decision(true, |recent| + 1, c.limit, 0)
    else Decision(false, |recent|, c.limit, if recent == [] then 1 else RetryAfter(Oldest(recent), c.window, now))
  }

  function RowsAfter(c: Config, hits: seq<Hit>, bucket: string, now: real): seq<Hit> {
    var kept := From(hits, now - c.window as real);
    if Admits(c, hits, bucket, now) then kept + [Hit(bucket, now)] else kept
  }

  /** `check` on the rows: the rows left and the decision. */
  function Check(c: Config, hits: seq<Hit>, bucket: string, now: real): (seq<Hit>, Decision) {
    (RowsAfter(c, hits, bucket, now), DecisionOn(c, Recent(c, hits, bucket, now), now))
  }

  datatype LimitError = EmptyBucket

  class RateLimiter {
    const config: Config
    var hits: seq<Hit>

    constructor (limit: int, window: int)
      ensures config == Config(if limit < 1 then 1 else limit, if window < 1 then 1 else window)
      ensures config.Valid() && hits == []
    {
      config := Config(if limit < 1 then 1 else limit, if window < 1 then 1 else window);
      hits := [];
    }

    /** One transaction: prune, count, admit or reject. */
    method CheckHit(bucket: string, now: real) returns (r: Result<Decision, LimitError>)
      requires config.Valid()
      modifies this
      ensures bucket == "" ==> r == Err(EmptyBucket) && hits == old(hits)
      ensures bucket != "" ==> r.Ok? && (hits, r.value) == Check(config, old(hits), bucket, now)
    {
      if bucket == "" {
        return Err(EmptyBucket);
      }
      var cutoff := now - config.window as real;
      hits := From(hits, cutoff);
      var count := Count(hits, bucket);
      if count >= config.limit {
        var oldest := Oldest(Of(hits, bucket));
        return Ok(Decision(false, count, config.limit, RetryAfter(oldest, config.window, now)));
      }
      hits := hits + [Hit(bucket, now)];
      r := Ok(Decision(true, count + 1, config.limit, 0));
    }
  }

  // ---- runs ----

  datatype Request = Request(bucket: string, now: real)

  /** `admitted` is every hit ever admitted, oldest first. */
  datatype Run = Run(hits: seq<Hit>, admitted: seq<Hit>, decisions: seq<Decision>)

  function Next(c: Config, s: Run, q: Request): Run {
    var (hits, d) := Check(c, s.hits, q.bucket, q.now);
    Run(hits, if d.allowed then s.admitted + [Hit(q.bucket, q.now)] else s.admitted, s.decisions + [d])
  }

  function RunOf(c: Config, qs: seq<Request>): Run {
    if qs == [] then Run([], [], []) else Next(c, RunOf(c, qs[..|qs| - 1]), qs[|qs| - 1])
  }

  /** The latest clock reading so far. */
  function LatestTime(qs: seq<Request>): real
    requires qs != []
  {
    var last := qs[|qs| - 1].now;
    if |qs| == 1 then last else Max(LatestTime(qs[..|qs| - 1]), last)
  }

  function Max(a: real, b: real): real {
    if a < b then b else a
  }

  /** The clock never falls more than `skew` below the latest earlier reading. */
  predicate Skewed(qs: seq<Request>, skew: real) {
    |qs| <= 1 ||
    (Skewed(qs[..|qs| - 1], skew) && qs[|qs| - 1].now >= LatestTime(qs[..|qs| - 1]) - skew)
  }

  /** The admitted hits of a bucket in a closed interval. */
  function Between(hits: seq<Hit>, bucket: string, lo: real, hi: real): seq<Hit> {
    if hits == [] then []
    else
      var last := hits[|hits| - 1];
      Between(hits[..|hits| - 1], bucket, lo, hi) + if last.bucket == bucket && lo <= last.at <= hi then [last] else []
  }

  // ---- facts about the queries ----

  lemma BetweenAppend(hits: seq<Hit>, x: Hit, bucket: string, lo: real, hi: real)
    ensures Between(hits + [x], bucket, lo, hi) ==
            Between(hits, bucket, lo, hi) + if x.bucket == bucket && lo <= x.at <= hi then [x] else []
  {
    assert (hits + [x])[..|hits|] == hits;
  }

  lemma FromAppend(hits: seq<Hit>, x: Hit, cutoff: real)
    ensures From(hits + [x], cutoff) == From(hits, cutoff) + if x.at < cutoff then [] else [x]
  {
    assert (hits + [x])[..|hits|] == hits;
  }

  lemma OfAppend(hits: seq<Hit>, x: Hit, bucket: string)
    ensures Of(hits + [x], bucket) == Of(hits, bucket) + if x.bucket == bucket then [x] else []
  {
    assert (hits + [x])[..|hits|] == hits;
  }

  lemma {:induction false} FromTwice(hits: seq<Hit>, a: real, b: real)
    requires a <= b
    ensures From(From(hits, a), b) == From(hits, b)
  {
    if hits != [] {
      var front, last := hits[..|hits| - 1], hits[|hits| - 1];
      FromTwice(front, a, b);
      if last.at >= a {
        FromAppend(From(front, a), last, b);
      } else {
        assert From(hits, a) == From(front, a);
      }
    }
  }

  lemma {:induction false} PruneKeepsLater(hits: seq<Hit>, cutoff: real, bucket: string, lo: real, hi: real)
    requires cutoff <= lo
    ensures Between(From(hits, cutoff), bucket, lo, hi) == Between(hits, bucket, lo, hi)
  {
    if hits != [] {
      var front, last := hits[..|hits| - 1], hits[|hits| - 1];
      PruneKeepsLater(front, cutoff, bucket, lo, hi);
      if last.at >= cutoff {
        BetweenAppend(From(front, cutoff), last, bucket, lo, hi);
      } else {
        assert From(hits, cutoff) == From(front, cutoff);
      }
    }
  }

  lemma {:induction false} BetweenAtMostCount(hits: seq<Hit>, bucket: string, lo: real, hi: real)
    ensures |Between(hits, bucket, lo, hi)| <= Count(hits, bucket)
  {
    if hits != [] {
      BetweenAtMostCount(hits[..|hits| - 1], bucket, lo, hi);
    }
  }

  // ---- one check, on the rows ----

  /** The rows of a bucket that are not before the cutoff. */
  ghost function InWindow(hits: seq<Hit>, bucket: string, cutoff: real): set<nat> {
    set i: nat | i < |hits| && hits[i].bucket == bucket && hits[i].at >= cutoff
  }

  /** `kept` is the rows that are not before the cutoff, in their order. */
  ghost predicate Keeps(hits: seq<Hit>, kept: seq<Hit>, cutoff: real) {
    exists places: seq<nat> :: KeepsAt(hits, kept, cutoff, places)
  }

  ghost predicate KeepsAt(hits: seq<Hit>, kept: seq<Hit>, cutoff: real, places: seq<nat>) {
    && |places| == |kept| && (forall j, k | 0 <= j < k < |places| :: places[j] < places[k])
    && (forall k | 0 <= k < |places| :: places[k] < |hits| && kept[k] == hits[places[k]] && kept[k].at >= cutoff)
    && (forall i: nat | i < |hits| && hits[i].at >= cutoff :: i in places)
  }

  lemma KeepsOne(hits: seq<Hit>, kept: seq<Hit>, cutoff: real, places: seq<nat>, x: Hit)
    requires KeepsAt(hits, kept, cutoff, places)
    ensures Keeps(hits + [x], if x.at < cutoff then kept else kept + [x], cutoff)
  {
    if x.at < cutoff {
      assert KeepsAt(hits + [x], kept, cutoff, places);
    } else {
      var more := places + [|hits|];
      forall i: nat | i < |hits + [x]| && (hits + [x])[i].at >= cutoff ensures i in more {
        assert i < |hits| ==> (hits + [x])[i] == hits[i] && i in places;
      }
      assert KeepsAt(hits + [x], kept + [x], cutoff, more);
    }
  }

  lemma {:induction false} FromKeeps(hits: seq<Hit>, cutoff: real)
    ensures Keeps(hits, From(hits, cutoff), cutoff)
  {
    hide KeepsAt;
    if hits == [] {
      NothingKept(cutoff);
    } else {
      var front, last := hits[..|hits| - 1], hits[|hits| - 1];
      FromKeeps(front, cutoff);
      var places :| KeepsAt(front, From(front, cutoff), cutoff, places);
      KeepsOne(front, From(front, cutoff), cutoff, places, last);
      assert hits == front + [last];
      assert From(front, cutoff) + [] == From(front, cutoff);
    }
  }

  lemma NothingKept(cutoff: real)
    ensures Keeps([], [], cutoff)
  {
    assert KeepsAt([], [], cutoff, []);
  }

  lemma WindowAppend(hits: seq<Hit>, x: Hit, bucket: string, cutoff: real)
    ensures |InWindow(hits + [x], bucket, cutoff)| == |InWindow(hits, bucket, cutoff)| + if x.bucket == bucket && x.at >= cutoff then 1 else 0
  {
    var before, after := InWindow(hits, bucket, cutoff), InWindow(hits + [x], bucket, cutoff);
    forall i: nat ensures i in after <==> i in before || (i == |hits| && x.bucket == bucket && x.at >= cutoff) {
      assert i < |hits| ==> (hits + [x])[i] == hits[i];
    }
    assert after == if x.bucket == bucket && x.at >= cutoff then before + {|hits|} else before;
  }

  lemma {:induction false} CountInWindow(hits: seq<Hit>, bucket: string, cutoff: real)
    ensures |Of(From(hits, cutoff), bucket)| == |InWindow(hits, bucket, cutoff)|
  {
    hide InWindow, Of;
    if hits == [] {
      EmptyWindow(bucket, cutoff);
    } else {
      var front, last := hits[..|hits| - 1], hits[|hits| - 1];
      CountInWindow(front, bucket, cutoff);
      WindowAppend(front, last, bucket, cutoff);
      OfAppend(From(front, cutoff), last, bucket);
      assert hits == front + [last];
      assert From(front, cutoff) + [] == From(front, cutoff);
    }
  }

  lemma EmptyWindow(bucket: string, cutoff: real)
    ensures InWindow([], bucket, cutoff) == {} && Of([], bucket) == []
  {
  }

  lemma {:induction false} RowsInWindow(hits: seq<Hit>, bucket: string, cutoff: real, x: Hit)
    ensures x in Of(From(hits, cutoff), bucket) <==> x in hits && x.bucket == bucket && x.at >= cutoff
  {
    hide Of;
    if hits == [] {
      EmptyWindow(bucket, cutoff);
    } else {
      var front, last := hits[..|hits| - 1], hits[|hits| - 1];
      RowsInWindow(front, bucket, cutoff, x);
      OfAppend(From(front, cutoff), last, bucket);
      assert hits == front + [last];
      assert From(front, cutoff) + [] == From(front, cutoff);
    }
  }

  lemma {:induction false} OldestIs(rows: seq<Hit>)
    requires rows != []
    ensures (exists x | x in rows :: x.at == Oldest(rows)) && forall x | x in rows :: Oldest(rows) <= x.at
  {
    var front, last := rows[..|rows| - 1], rows[|rows| - 1];
    assert rows == front + [last];
    if front != [] {
      OldestIs(front);
    }
  }

  /** One check: it admits exactly when fewer than `limit` rows of the bucket are in the window, counts them and
      the hit it admits, keeps the rows that are not before the window, in order, and adds that hit.  A rejection
      waits for the oldest of them: the time left plus 0.999 s, cut to whole seconds, and at least one. */
  lemma CheckIff(c: Config, hits: seq<Hit>, bucket: string, now: real)
    requires c.Valid()
    ensures var (after, d) := Check(c, hits, bucket, now);
            var cutoff := now - c.window as real;
            var n := |InWindow(hits, bucket, cutoff)|;
            && (d.allowed <==> n < c.limit) && d.limit == c.limit
            && (d.allowed ==> d.count == n + 1 && d.retryAfter == 0 && after != [] && after[|after| - 1] == Hit(bucket, now)
                              && Keeps(hits, after[..|after| - 1], cutoff))
            && (!d.allowed ==>
                  && d.count == n && Keeps(hits, after, cutoff) && d.retryAfter >= 1
                  && exists x | x in hits && x.bucket == bucket && x.at >= cutoff ::
                       && (forall y | y in hits && y.bucket == bucket && y.at >= cutoff :: x.at <= y.at)
                       && var left := x.at - cutoff + 0.999;
                          if left < 1.0 then d.retryAfter == 1 else d.retryAfter as real <= left < d.retryAfter as real + 1.0)
  {
    hide Keeps, InWindow, From, Of, Oldest;
    var cutoff, rows := now - c.window as real, Recent(c, hits, bucket, now);
    FromKeeps(hits, cutoff);
    CountInWindow(hits, bucket, cutoff);
    if |rows| >= c.limit {
      OldestIs(rows);
      var x :| x in rows && x.at == Oldest(rows);
      RowsInWindow(hits, bucket, cutoff, x);
      forall y | y in hits && y.bucket == bucket && y.at >= cutoff ensures x.at <= y.at {
        RowsInWindow(hits, bucket, cutoff, y);
      }
    }
  }

  // ---- the sliding-window bound ----

  /** Every interval that no cutoff has reached shows the same in the rows and in the history. */
  ghost predicate Complete(c: Config, s: Run, latest: real) {
    forall bucket, lo, hi | latest - c.window as real <= lo ::
      Between(s.hits, bucket, lo, hi) == Between(s.admitted, bucket, lo, hi)
  }

  ghost predicate Bounded(c: Config, admitted: seq<Hit>, length: real) {
    forall bucket, lo, hi | hi - lo <= length :: |Between(admitted, bucket, lo, hi)| <= c.limit
  }

  lemma NextComplete(c: Config, s: Run, q: Request, latest: real)
    requires Complete(c, s, latest)
    ensures Complete(c, Next(c, s, q), Max(latest, q.now))
  {
    var t := Next(c, s, q);
    var cutoff := q.now - c.window as real;
    forall bucket, lo, hi | Max(latest, q.now) - c.window as real <= lo
      ensures Between(t.hits, bucket, lo, hi) == Between(t.admitted, bucket, lo, hi)
    {
      PruneKeepsLater(s.hits, cutoff, bucket, lo, hi);
      BetweenAppend(From(s.hits, cutoff), Hit(q.bucket, q.now), bucket, lo, hi);
      BetweenAppend(s.admitted, Hit(q.bucket, q.now), bucket, lo, hi);
    }
  }

  lemma NextBounded(c: Config, s: Run, q: Request, latest: real, skew: real)
    requires c.Valid() && skew >= 0.0 && q.now >= latest - skew
    requires Complete(c, s, latest) && Bounded(c, s.admitted, c.window as real - skew)
    ensures Bounded(c, Next(c, s, q).admitted, c.window as real - skew)
  {
    var cutoff := q.now - c.window as real;
    forall bucket, lo, hi | hi - lo <= c.window as real - skew
      ensures |Between(Next(c, s, q).admitted, bucket, lo, hi)| <= c.limit
    {
      BetweenAppend(s.admitted, Hit(q.bucket, q.now), bucket, lo, hi);
      if q.bucket == bucket && lo <= q.now <= hi {
        assert latest - c.window as real <= lo && cutoff <= lo;
        PruneKeepsLater(s.hits, cutoff, bucket, lo, hi);
        BetweenAtMostCount(From(s.hits, cutoff), bucket, lo, hi);
      }
      assert |Between(s.admitted, bucket, lo, hi)| <= c.limit;
    }
  }

  lemma {:induction false} RunBounded(c: Config, qs: seq<Request>, skew: real)
    requires c.Valid() && skew >= 0.0 && Skewed(qs, skew)
    ensures Bounded(c, RunOf(c, qs).admitted, c.window as real - skew)
    ensures qs != [] ==> Complete(c, RunOf(c, qs), LatestTime(qs))
  {
    if qs != [] {
      var front, q := qs[..|qs| - 1], qs[|qs| - 1];
      var s := RunOf(c, front);
      RunBounded(c, front, skew);
      if front == [] {
        assert Complete(c, s, q.now);
        NextComplete(c, s, q, q.now);
        NextBounded(c, s, q, q.now, skew);
      } else {
        NextComplete(c, s, q, LatestTime(front));
        NextBounded(c, s, q, LatestTime(front), skew);
      }
    }
  }

  /** With a clock that falls back by at most `skew`, any closed interval shorter than the window
      by `skew` holds at most `limit` admitted hits of a bucket. */
  lemma SlidingWindowBound(c: Config, qs: seq<Request>, skew: real, bucket: string, lo: real, hi: real)
    requires c.Valid() && skew >= 0.0 && Skewed(qs, skew) && hi - lo <= c.window as real - skew
    ensures |Between(RunOf(c, qs).admitted, bucket, lo, hi)| <= c.limit
  {
    RunBounded(c, qs, skew);
  }

  // ---- the bound is tight ----

  function Flood(bucket: string, n: nat): (r: seq<Request>)
    ensures |r| == n
  {
    if n == 0 then [] else Flood(bucket, n - 1) + [Request(bucket, 0.0)]
  }

  function Flooded(bucket: string, n: nat): (r: seq<Hit>)
    ensures |r| == n
  {
    if n == 0 then [] else Flooded(bucket, n - 1) + [Hit(bucket, 0.0)]
  }

  lemma {:induction false} FloodedRows(bucket: string, n: nat, cutoff: real)
    ensures From(Flooded(bucket, n), cutoff) == if cutoff > 0.0 then [] else Flooded(bucket, n)
    ensures Of(Flooded(bucket, n), bucket) == Flooded(bucket, n)
  {
    if n > 0 {
      FloodedRows(bucket, n - 1, cutoff);
      assert Flooded(bucket, n)[..n - 1] == Flooded(bucket, n - 1);
    }
  }

  lemma BetweenNone(bucket: string, hi: real)
    ensures Between([], bucket, 0.0, hi) == []
  {
  }

  lemma {:induction false} FloodedBetween(bucket: string, n: nat, hi: real)
    requires hi >= 0.0
    ensures |Between(Flooded(bucket, n), bucket, 0.0, hi)| == n
  {
    hide Between;
    if n == 0 {
      BetweenNone(bucket, hi);
    } else {
      FloodedBetween(bucket, n - 1, hi);
      BetweenAppend(Flooded(bucket, n - 1), Hit(bucket, 0.0), bucket, 0.0, hi);
    }
  }

  lemma RunAppend(c: Config, qs: seq<Request>, q: Request)
    ensures RunOf(c, qs + [q]) == Next(c, RunOf(c, qs), q)
  {
    hide Next;
    assert (qs + [q])[..|qs|] == qs;
  }

  lemma SkewedAppend(qs: seq<Request>, q: Request, skew: real)
    ensures Skewed(qs + [q], skew) <==> qs == [] || (Skewed(qs, skew) && q.now >= LatestTime(qs) - skew)
    ensures LatestTime(qs + [q]) == if qs == [] then q.now else Max(LatestTime(qs), q.now)
  {
    assert (qs + [q])[..|qs|] == qs;
  }

  /** A request is admitted when the rows left for its bucket are fewer than the limit. */
  lemma NextAdmits(c: Config, s: Run, q: Request, kept: seq<Hit>)
    requires From(s.hits, q.now - c.window as real) == kept && |Of(kept, q.bucket)| < c.limit
    ensures Next(c, s, q).hits == kept + [Hit(q.bucket, q.now)] && Next(c, s, q).admitted == s.admitted + [Hit(q.bucket, q.now)]
  {
    hide From, Of;
  }

  /** Requests at one moment, up to the limit, are all admitted. */
  lemma {:induction false} FloodAdmitted(c: Config, bucket: string, n: nat, skew: real)
    requires n <= c.limit && skew >= 0.0
    ensures var s := RunOf(c, Flood(bucket, n)); s.hits == Flooded(bucket, n) && s.admitted == Flooded(bucket, n)
    ensures Skewed(Flood(bucket, n), skew) && (n > 0 ==> LatestTime(Flood(bucket, n)) == 0.0)
  {
    hide RunOf, Next, Skewed, LatestTime, From, Of;
    if n == 0 {
      NothingAdmitted(c, skew);
    } else {
      var before, q := Flood(bucket, n - 1), Request(bucket, 0.0);
      FloodAdmitted(c, bucket, n - 1, skew);
      FloodedRows(bucket, n - 1, 0.0 - c.window as real);
      RunAppend(c, before, q);
      SkewedAppend(before, q, skew);
      NextAdmits(c, RunOf(c, before), q, Flooded(bucket, n - 1));
    }
  }

  lemma NothingAdmitted(c: Config, skew: real)
    ensures RunOf(c, []) == Run([], [], []) && Skewed([], skew)
  {
  }

  /** One request on another bucket, ahead of the clock, and one more on the first. */
  function Overtaken(c: Config, bucket: string, other: string, skew: real, extra: real): seq<Request> {
    Flood(bucket, c.limit) + [Request(other, c.window as real + extra)] + [Request(bucket, c.window as real + extra - skew)]
  }

  lemma OvertakenSkewed(c: Config, bucket: string, other: string, skew: real, extra: real)
    requires c.Valid() && 0.0 < extra <= skew <= c.window as real
    ensures Skewed(Overtaken(c, bucket, other, skew, extra), skew)
  {
    hide Skewed, LatestTime, Flood;
    var flood, ahead, back := Flood(bucket, c.limit), Request(other, c.window as real + extra), Request(bucket, c.window as real + extra - skew);
    FloodAdmitted(c, bucket, c.limit, skew);
    SkewedAppend(flood, ahead, skew);
    SkewedAppend(flood + [ahead], back, skew);
  }

  /** The request ahead of the clock empties the table. */
  lemma AheadAdmitted(c: Config, bucket: string, other: string, skew: real, extra: real)
    requires c.Valid() && bucket != other && 0.0 < extra <= skew <= c.window as real
    ensures var row := Hit(other, c.window as real + extra);
            var s := RunOf(c, Flood(bucket, c.limit) + [Request(other, row.at)]);
            s.hits == [row] && s.admitted == Flooded(bucket, c.limit) + [row]
  {
    hide RunOf, Next, Flood, Flooded, From;
    var flood, ahead := Flood(bucket, c.limit), Request(other, c.window as real + extra);
    FloodAdmitted(c, bucket, c.limit, skew);
    FloodedRows(bucket, c.limit, extra);
    RunAppend(c, flood, ahead);
    assert Of([], other) == [];
    NextAdmits(c, RunOf(c, flood), ahead, []);
    assert [] + [Hit(other, ahead.now)] == [Hit(other, ahead.now)];
  }

  lemma OvertakenAdmitted(c: Config, bucket: string, other: string, skew: real, extra: real)
    requires c.Valid() && bucket != other && 0.0 < extra <= skew <= c.window as real
    ensures RunOf(c, Overtaken(c, bucket, other, skew, extra)).admitted ==
            Flooded(bucket, c.limit) + [Hit(other, c.window as real + extra)] + [Hit(bucket, c.window as real + extra - skew)]
  {
    hide RunOf, Next, Flood, Flooded, From, Of;
    var flood, ahead, back := Flood(bucket, c.limit), Request(other, c.window as real + extra), Request(bucket, c.window as real + extra - skew);
    var row := Hit(other, ahead.now);
    AheadAdmitted(c, bucket, other, skew, extra);
    RunAppend(c, flood + [ahead], back);
    OneRow(row);
    NextAdmits(c, RunOf(c, flood + [ahead]), back, [row]);
  }

  /** The allowance for skew is exact: with a clock that falls back by `skew`, some run admits
      `limit` + 1 hits of a bucket in a closed interval that is longer than the window less `skew` by
      as little as one likes. */
  lemma SkewBoundTight(c: Config, bucket: string, other: string, skew: real, extra: real)
    requires c.Valid() && bucket != other && 0.0 < extra <= skew <= c.window as real
    ensures var qs := Overtaken(c, bucket, other, skew, extra);
            && Skewed(qs, skew)
            && |Between(RunOf(c, qs).admitted, bucket, 0.0, c.window as real - skew + extra)| == c.limit + 1
  {
    hide Overtaken, Skewed, RunOf;
    OvertakenSkewed(c, bucket, other, skew, extra);
    OvertakenAdmitted(c, bucket, other, skew, extra);
    var hi := c.window as real - skew + extra;
    var x, y := Hit(other, c.window as real + extra), Hit(bucket, c.window as real + extra - skew);
    FloodedBetween(bucket, c.limit, hi);
    BetweenAppend(Flooded(bucket, c.limit), x, bucket, 0.0, hi);
    BetweenAppend(Flooded(bucket, c.limit) + [x], y, bucket, 0.0, hi);
  }

  lemma OneRow(x: Hit)
    ensures forall cutoff :: From([x], cutoff) == if x.at < cutoff then [] else [x]
    ensures forall bucket :: Of([x], bucket) == if x.bucket == bucket then [x] else []
  {
    assert [x][..0] == [];
  }

  // ---- refinement of the limiter that keeps everything ----

  /** A limiter that never deletes and counts the admitted hits of the last window. */
  function CheckHistory(c: Config, admitted: seq<Hit>, bucket: string, now: real): (seq<Hit>, Decision) {
    (if Admits(c, admitted, bucket, now) then admitted + [Hit(bucket, now)] else admitted,
     DecisionOn(c, Recent(c, admitted, bucket, now), now))
  }

  function HistoryNext(c: Config, s: (seq<Hit>, seq<Decision>), q: Request): (seq<Hit>, seq<Decision>) {
    var (after, d) := CheckHistory(c, s.0, q.bucket, q.now);
    (after, s.1 + [d])
  }

  function HistoryRun(c: Config, qs: seq<Request>): (seq<Hit>, seq<Decision>) {
    if qs == [] then ([], [])
    else
      HistoryNext(c, HistoryRun(c, qs[..|qs| - 1]), qs[|qs| - 1])
  }

  /** With a monotone clock the pruned table decides every request as the full history does, and
      holds exactly the history from the last cutoff on. */
  lemma {:induction false} PrunedRefinesHistory(c: Config, qs: seq<Request>)
    requires Skewed(qs, 0.0)
    ensures (RunOf(c, qs).admitted, RunOf(c, qs).decisions) == HistoryRun(c, qs)
    ensures qs != [] ==> RunOf(c, qs).hits == From(RunOf(c, qs).admitted, qs[|qs| - 1].now - c.window as real)
  {
    hide Next, HistoryNext;
    if qs != [] {
      var front, q := qs[..|qs| - 1], qs[|qs| - 1];
      var s := RunOf(c, front);
      PrunedRefinesHistory(c, front);
      if front != [] {
        var earlier := front[|front| - 1].now;
        assert earlier <= LatestTime(front) <= q.now;
        FromTwice(s.admitted, earlier - c.window as real, q.now - c.window as real);
      }
      NextRefines(c, s, q);
    }
  }

  lemma NextRefines(c: Config, s: Run, q: Request)
    requires From(s.hits, q.now - c.window as real) == From(s.admitted, q.now - c.window as real)
    ensures (Next(c, s, q).admitted, Next(c, s, q).decisions) == HistoryNext(c, (s.admitted, s.decisions), q)
    ensures Next(c, s, q).hits == From(Next(c, s, q).admitted, q.now - c.window as real)
  {
    FromAppend(s.admitted, Hit(q.bucket, q.now), q.now - c.window as real);
  }

  // ---- the retry time ----

  /** No row is later than `latest`, and no bucket holds more than `limit` rows. */
  ghost predicate TableOk(c: Config, hits: seq<Hit>, latest: real) {
    && (forall x | x in hits :: x.at <= latest)
    && (forall bucket :: Count(hits, bucket) <= c.limit)
  }

  lemma {:induction false} FromFacts(hits: seq<Hit>, cutoff: real, bucket: string)
    ensures forall x | x in From(hits, cutoff) :: x in hits && x.at >= cutoff
    ensures Count(From(hits, cutoff), bucket) <= Count(hits, bucket)
    ensures (exists x | x in Of(hits, bucket) :: x.at < cutoff) ==> Count(From(hits, cutoff), bucket) < Count(hits, bucket)
    ensures (forall x | x in Of(hits, bucket) :: x.at >= cutoff) ==> Of(From(hits, cutoff), bucket) == Of(hits, bucket)
  {
    if hits != [] {
      var front, last := hits[..|hits| - 1], hits[|hits| - 1];
      FromFacts(front, cutoff, bucket);
      assert hits == front + [last];
      OfAppend(From(front, cutoff), last, bucket);
      assert Of(hits, bucket) == Of(front, bucket) + if last.bucket == bucket then [last] else [];
      assert forall x | x in Of(front, bucket) :: x in Of(hits, bucket);
      if last.at < cutoff {
        assert From(hits, cutoff) == From(front, cutoff);
      }
    }
  }

  lemma {:induction false} OfFacts(hits: seq<Hit>, bucket: string)
    ensures forall x | x in Of(hits, bucket) :: x in hits && x.bucket == bucket
  {
    if hits != [] {
      OfFacts(hits[..|hits| - 1], bucket);
    }
  }

  lemma CountAfter(c: Config, hits: seq<Hit>, bucket: string, now: real, b: string)
    requires c.Valid() && Count(hits, b) <= c.limit
    ensures Count(RowsAfter(c, hits, bucket, now), b) <= c.limit
  {
    FromFacts(hits, now - c.window as real, b);
    OfAppend(From(hits, now - c.window as real), Hit(bucket, now), b);
  }

  lemma CheckKeepsTable(c: Config, hits: seq<Hit>, bucket: string, now: real, latest: real)
    requires c.Valid() && TableOk(c, hits, latest) && latest <= now
    ensures TableOk(c, RowsAfter(c, hits, bucket, now), now)
  {
    forall b ensures Count(RowsAfter(c, hits, bucket, now), b) <= c.limit {
      assert Count(hits, b) <= c.limit;
      CountAfter(c, hits, bucket, now, b);
    }
    FromFacts(hits, now - c.window as real, bucket);
  }

  /** With a monotone clock every reachable table is such a table. */
  lemma {:induction false} ReachableTableOk(c: Config, qs: seq<Request>)
    requires c.Valid() && qs != [] && Skewed(qs, 0.0)
    ensures TableOk(c, RunOf(c, qs).hits, qs[|qs| - 1].now)
  {
    var front, q := qs[..|qs| - 1], qs[|qs| - 1];
    if front == [] {
      assert TableOk(c, [], q.now);
      CheckKeepsTable(c, [], q.bucket, q.now, q.now);
    } else {
      ReachableTableOk(c, front);
      assert front[|front| - 1].now <= LatestTime(front) <= q.now;
      CheckKeepsTable(c, RunOf(c, front).hits, q.bucket, q.now, front[|front| - 1].now);
    }
  }

  /** Further requests, none of which admits a hit of `bucket`. */
  function Later(c: Config, hits: seq<Hit>, qs: seq<Request>): seq<Hit> {
    if qs == [] then hits
    else RowsAfter(c, Later(c, hits, qs[..|qs| - 1]), qs[|qs| - 1].bucket, qs[|qs| - 1].now)
  }

  predicate NoneAdmitted(c: Config, hits: seq<Hit>, qs: seq<Request>, bucket: string) {
    qs == [] ||
    var front, q := qs[..|qs| - 1], qs[|qs| - 1];
    NoneAdmitted(c, hits, front, bucket) && (q.bucket == bucket ==> !Admits(c, Later(c, hits, front), bucket, q.now))
  }

  /** Meanwhile the rows of `bucket` only lose the rows the cutoffs have passed. */
  lemma {:induction false} LaterRows(c: Config, hits: seq<Hit>, qs: seq<Request>, bucket: string, until: real)
    requires NoneAdmitted(c, hits, qs, bucket)
    requires forall i | 0 <= i < |qs| :: qs[i].now <= until
    ensures From(Of(Later(c, hits, qs), bucket), until - c.window as real) == From(Of(hits, bucket), until - c.window as real)
  {
    if qs != [] {
      var front, q := qs[..|qs| - 1], qs[|qs| - 1];
      LaterRows(c, hits, front, bucket, until);
      CheckRows(c, Later(c, hits, front), q, bucket, until - c.window as real);
    }
  }

  /** A request that admits nothing on `bucket` leaves the rows of `bucket` from a later cutoff on. */
  lemma CheckRows(c: Config, hits: seq<Hit>, q: Request, bucket: string, cutoff: real)
    requires q.bucket == bucket ==> !Admits(c, hits, bucket, q.now)
    requires q.now - c.window as real <= cutoff
    ensures From(Of(RowsAfter(c, hits, q.bucket, q.now), bucket), cutoff) == From(Of(hits, bucket), cutoff)
  {
    UnadmittedRows(c, hits, q, bucket);
    OfFrom(hits, q.now - c.window as real, bucket);
    FromTwice(Of(hits, bucket), q.now - c.window as real, cutoff);
  }

  lemma UnadmittedRows(c: Config, hits: seq<Hit>, q: Request, bucket: string)
    requires q.bucket == bucket ==> !Admits(c, hits, bucket, q.now)
    ensures Of(RowsAfter(c, hits, q.bucket, q.now), bucket) == Of(From(hits, q.now - c.window as real), bucket)
  {
    var kept := From(hits, q.now - c.window as real);
    OfAppend(kept, Hit(q.bucket, q.now), bucket);
    assert Of(kept, bucket) + [] == Of(kept, bucket);
  }

  lemma {:induction false} OfFrom(hits: seq<Hit>, cutoff: real, bucket: string)
    ensures Of(From(hits, cutoff), bucket) == From(Of(hits, bucket), cutoff)
  {
    if hits != [] {
      var front, last := hits[..|hits| - 1], hits[|hits| - 1];
      OfFrom(front, cutoff, bucket);
      assert hits == front + [last];
      OfAppend(From(front, cutoff), last, bucket);
      OfAppend(front, last, bucket);
      FromAppend(front, last, cutoff);
      FromAppend(Of(front, bucket), last, cutoff);
      assert Of(front, bucket) + [] == Of(front, bucket);
      assert From(front, cutoff) + [] == From(front, cutoff);
      assert Of(From(front, cutoff), bucket) + [] == Of(From(front, cutoff), bucket);
    }
  }

  /** A request is admitted when fewer than `limit` rows of its bucket are in the window. */
  lemma AdmittedIff(c: Config, hits: seq<Hit>, bucket: string, now: real)
    ensures Admits(c, hits, bucket, now) <==> |From(Of(hits, bucket), now - c.window as real)| < c.limit
  {
    OfFrom(hits, now - c.window as real, bucket);
  }

  /** A rejection leaves exactly `limit` rows of the bucket, all in the window. */
  lemma RejectedRows(c: Config, hits: seq<Hit>, bucket: string, now: real, latest: real)
    requires c.Valid() && TableOk(c, hits, latest) && latest <= now
    requires !Check(c, hits, bucket, now).1.allowed
    ensures var rows := Of(Check(c, hits, bucket, now).0, bucket);
            && |rows| == c.limit
            && (forall x | x in rows :: now - c.window as real <= x.at <= now)
            && Check(c, hits, bucket, now).1.retryAfter == RetryAfter(Oldest(rows), c.window, now)
  {
    var kept := From(hits, now - c.window as real);
    assert Check(c, hits, bucket, now).0 == kept;
    KeptRows(c, hits, bucket, now, latest);
  }

  lemma KeptRows(c: Config, hits: seq<Hit>, bucket: string, now: real, latest: real)
    requires TableOk(c, hits, latest) && latest <= now
    ensures var rows := Of(From(hits, now - c.window as real), bucket);
            |rows| <= c.limit && forall x | x in rows :: now - c.window as real <= x.at <= now
  {
    FromFacts(hits, now - c.window as real, bucket);
    OfFacts(From(hits, now - c.window as real), bucket);
    assert Count(hits, bucket) <= c.limit;
  }

  lemma {:induction false} OldestWithin(rows: seq<Hit>, lo: real, hi: real)
    requires rows != [] && forall x | x in rows :: lo <= x.at <= hi
    ensures lo <= Oldest(rows) <= hi
  {
    assert rows[|rows| - 1] in rows;
    if |rows| > 1 {
      OldestWithin(rows[..|rows| - 1], lo, hi);
    }
  }

  lemma RetryBounds(oldest: real, window: nat, now: real)
    requires oldest + window as real - now >= 0.0
    ensures RetryAfter(oldest, window, now) as real + 0.001 > oldest + window as real - now
    ensures RetryAfter(oldest, window, now) > 1 ==>
              RetryAfter(oldest, window, now) as real <= oldest + window as real - now + 0.999
  {
  }

  /** From some rows of one bucket, all are left exactly while the cutoff is not past the oldest. */
  lemma {:induction false} AllLeftIff(rows: seq<Hit>, cutoff: real)
    requires rows != []
    ensures |From(rows, cutoff)| <= |rows|
    ensures |From(rows, cutoff)| < |rows| <==> Oldest(rows) < cutoff
  {
    if |rows| > 1 {
      AllLeftIff(rows[..|rows| - 1], cutoff);
    }
  }

  /** The row a rejection waits for is still in the window, so the wait is from 1 to `window`. */
  lemma RetryAfterInRange(c: Config, hits: seq<Hit>, bucket: string, now: real, latest: real)
    requires c.Valid() && TableOk(c, hits, latest) && latest <= now
    requires !Check(c, hits, bucket, now).1.allowed
    ensures 1 <= Check(c, hits, bucket, now).1.retryAfter <= c.window
  {
    RejectedRows(c, hits, bucket, now, latest);
    var rows := Of(RowsAfter(c, hits, bucket, now), bucket);
    OldestWithin(rows, now - c.window as real, now);
  }

  /** After a rejection, and with nothing else admitted on the bucket meanwhile, a retry is admitted
      exactly when more than the true wait has passed; the announced wait plus 0.001 s is enough,
      and when it is above 1 s it is at most 0.999 s too long. */
  lemma {:induction false} RetryAdmittedIff(c: Config, hits: seq<Hit>, bucket: string, now: real, latest: real, qs: seq<Request>, retry: real)
    requires c.Valid() && TableOk(c, hits, latest) && latest <= now
    requires !Check(c, hits, bucket, now).1.allowed
    requires NoneAdmitted(c, Check(c, hits, bucket, now).0, qs, bucket)
    requires now <= retry && forall i | 0 <= i < |qs| :: now <= qs[i].now <= retry
    ensures Of(Check(c, hits, bucket, now).0, bucket) != []
    ensures var (after, d) := Check(c, hits, bucket, now);
            var trueWait := Oldest(Of(after, bucket)) + c.window as real - now;
            && (Check(c, Later(c, after, qs), bucket, retry).1.allowed <==> retry > now + trueWait)
            && (retry >= now + d.retryAfter as real + 0.001 ==> retry > now + trueWait)
            && (d.retryAfter > 1 ==> d.retryAfter as real <= trueWait + 0.999)
  {
    var after := Check(c, hits, bucket, now).0;
    RejectedRows(c, hits, bucket, now, latest);
    RetryAllowedIff(c, after, bucket, qs, retry);
    OldestWithin(Of(after, bucket), now - c.window as real, now);
    RetryBounds(Oldest(Of(after, bucket)), c.window, now);
  }

  /** A full bucket admits again exactly when its oldest row has left the window. */
  lemma {:induction false} RetryAllowedIff(c: Config, hits: seq<Hit>, bucket: string, qs: seq<Request>, retry: real)
    requires c.Valid() && |Of(hits, bucket)| == c.limit
    requires NoneAdmitted(c, hits, qs, bucket)
    requires forall i | 0 <= i < |qs| :: qs[i].now <= retry
    ensures Admits(c, Later(c, hits, qs), bucket, retry) <==> Oldest(Of(hits, bucket)) < retry - c.window as real
  {
    LaterRows(c, hits, qs, bucket, retry);
    AdmittedIff(c, Later(c, hits, qs), bucket, retry);
    AllLeftIff(Of(hits, bucket), retry - c.window as real);
  }
}
