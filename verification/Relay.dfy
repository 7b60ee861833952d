/** Forwarding to partners: the bounded retry queue and the circuit breaker. */
module Relay {
  import opened Json

  /** A signed envelope waiting to be forwarded. */
  type Message = Json

  /** A queue holds at least one message; with a smaller cap the code pops from an empty list. */
  datatype Settings = Settings(maxRetry: nat, breakSeconds: real, cap: nat)

  /** The breaker of a partner: when it closes again and the failures in a row. */
  datatype Breaker = Breaker(until: real, fails: nat)

  type Failures = map<string, Breaker>

  function Pow2(n: nat): nat {
    if n == 0 then 1 else 2 * Pow2(n - 1)
  }

  function Min(a: real, b: real): real {
    if a <= b then a else b
  }

  /** The least exponent of 2 that is too large for a float: multiplying by that power raises. */
  const FLOAT_EXPONENTS: nat := 1024

  /** The largest count of failures in a row that `_mark_fail` can store. */
  function CountLimit(s: Settings): nat {
    s.maxRetry + (FLOAT_EXPONENTS - 1)
  }

  /** `breakSeconds` times 2^n, at most 16 times. */
  function Period(s: Settings, n: nat): real {
    Min(s.breakSeconds * 16.0, s.breakSeconds * Pow2(n) as real)
  }

  /** How long the breaker stays open after this many failures in a row. */
  function OpenPeriod(s: Settings, fails: nat): real
    requires s.maxRetry <= fails <= CountLimit(s)
  {
    Period(s, fails - s.maxRetry)
  }

  /** The stored count of failures in a row. */
  function Fails(failures: Failures, url: string): nat {
    if url in failures then failures[url].fails else 0
  }

  predicate Available(s: Settings, failures: Failures, url: string, now: real) {
    url !in failures || failures[url].fails < s.maxRetry || now > failures[url].until
  }

  function MarkOk(failures: Failures, url: string): Failures {
    failures - {url}
  }

  /** `_mark_fail` raises `OverflowError`, whatever `min` would choose. */
  predicate Overflows(s: Settings, failures: Failures, url: string) {
    Fails(failures, url) >= CountLimit(s)
  }

  /** `_mark_fail`; nothing is stored when it raises. */
  function MarkFail(s: Settings, failures: Failures, url: string, now: real): Failures {
    var fails := Fails(failures, url) + 1;
    if Overflows(s, failures, url) then failures
    else failures[url := Breaker(if fails >= s.maxRetry then now + OpenPeriod(s, fails) else 0.0, fails)]
  }

  /** What a post that ended leaves in the breakers. */
  function Marked(s: Settings, failures: Failures, url: string, ok: bool, now: real): Failures {
    if ok then MarkOk(failures, url) else MarkFail(s, failures, url, now)
  }

  /** Marking the outcome of a post raises. */
  predicate Raises(s: Settings, failures: Failures, url: string, ok: bool) {
    !ok && Overflows(s, failures, url)
  }

  function Enqueue(queue: seq<Message>, cap: nat, m: Message): (r: seq<Message>)
    requires cap >= 1
    ensures |queue| <= cap ==> |r| <= cap
  {
    if |queue| >= cap then queue[1..] + [m] else queue + [m]
  }

  /** The messages that the cap pushes out. */
  function Evicted(queue: seq<Message>, cap: nat): seq<Message>
    requires cap >= 1
  {
    if |queue| >= cap then [queue[0]] else []
  }

  /** The queue keeps its order: the new message is last, and what no longer fits left at the front. */
  lemma EnqueueOrder(queue: seq<Message>, cap: nat, m: Message)
    requires cap >= 1 && |queue| <= cap
    ensures Evicted(queue, cap) + Enqueue(queue, cap, m) == queue + [m]
    ensures |Enqueue(queue, cap, m)| == if |queue| < cap then |queue| + 1 else cap
  {
    if |queue| >= cap {
      assert queue == [queue[0]] + queue[1..];
    }
  }

  // ---- a dispatch that nothing interrupts ----

  /** What the turn of one partner meets: the clock at the check, the outcome of the post and the
      clock when it is marked. */
  datatype Turn = Turn(checkedAt: real, ok: bool, markedAt: real)

  datatype Client = Client(queue: seq<Message>, failures: Failures)

  /** A dispatch so far; once a mark has raised it goes no further. */
  datatype Dispatching = Dispatching(client: Client, raised: bool)

  /** A post to `url` is tried. */
  predicate Tries(s: Settings, d: Dispatching, url: string, t: Turn) {
    !d.raised && Available(s, d.client.failures, url, t.checkedAt)
  }

  function DispatchTurn(s: Settings, d: Dispatching, m: Message, url: string, t: Turn): Dispatching
    requires s.cap >= 1
  {
    var c := d.client;
    if d.raised then d
    else if !Tries(s, d, url, t) then Dispatching(Client(Enqueue(c.queue, s.cap, m), c.failures), false)
    else if Raises(s, c.failures, url, t.ok) then Dispatching(c, true)
    else
      var failures := Marked(s, c.failures, url, t.ok, t.markedAt);
      Dispatching(Client(if t.ok then c.queue else Enqueue(c.queue, s.cap, m), failures), false)
  }

  /** The dispatch after the first `n` partners had their turn. */
  function Dispatched(s: Settings, c: Client, m: Message, partners: seq<string>, world: nat -> Turn, n: nat): Dispatching
    requires s.cap >= 1 && n <= |partners|
  {
    if n == 0 then Dispatching(c, false)
    else DispatchTurn(s, Dispatched(s, c, m, partners, world, n - 1), m, partners[n - 1], world(n - 1))
  }

  /** One of the first `n` partners accepts the message. */
  predicate SomeAccepts(s: Settings, c: Client, m: Message, partners: seq<string>, world: nat -> Turn, n: nat)
    requires s.cap >= 1 && n <= |partners|
  {
    exists i | 0 <= i < n :: AcceptsAt(s, c, m, partners, world, i)
  }

  predicate AcceptsAt(s: Settings, c: Client, m: Message, partners: seq<string>, world: nat -> Turn, i: nat)
    requires s.cap >= 1 && i < |partners|
  {
    Tries(s, Dispatched(s, c, m, partners, world, i), partners[i], world(i)) && world(i).ok
  }

  // ---- a drain that nothing interrupts ----

  /** The messages whose flag is not set, in order. */
  function Undelivered(ms: seq<Message>, delivered: seq<bool>): seq<Message>
    requires |ms| == |delivered|
  {
    if ms == [] then []
    else
      var n := |ms| - 1;
      Undelivered(ms[..n], delivered[..n]) + if delivered[n] then [] else [ms[n]]
  }

  function Delivered(ms: seq<Message>, delivered: seq<bool>): seq<Message>
    requires |ms| == |delivered|
  {
    if ms == [] then []
    else
      var n := |ms| - 1;
      Delivered(ms[..n], delivered[..n]) + if delivered[n] then [ms[n]] else []
  }

  lemma UndeliveredAppend(ms: seq<Message>, delivered: seq<bool>, m: Message, ok: bool)
    requires |ms| == |delivered|
    ensures Undelivered(ms + [m], delivered + [ok]) == if ok then Undelivered(ms, delivered) else Undelivered(ms, delivered) + [m]
    ensures Delivered(ms + [m], delivered + [ok]) == if ok then Delivered(ms, delivered) + [m] else Delivered(ms, delivered)
  {
    assert (ms + [m])[..|ms|] == ms && (delivered + [ok])[..|ms|] == delivered;
  }

  lemma {:induction false} UndeliveredLength(ms: seq<Message>, delivered: seq<bool>)
    requires |ms| == |delivered|
    ensures |Undelivered(ms, delivered)| <= |ms|
  {
    if ms != [] {
      UndeliveredLength(ms[..|ms| - 1], delivered[..|ms| - 1]);
    }
  }

  lemma UndeliveredStep(ms: seq<Message>, i: nat, delivered: seq<bool>, ok: bool)
    requires |delivered| == i < |ms|
    ensures |Undelivered(ms[..i], delivered)| <= i
    ensures Undelivered(ms[..i + 1], delivered + [ok]) ==
            if ok then Undelivered(ms[..i], delivered) else Undelivered(ms[..i], delivered) + [ms[i]]
  {
    assert ms[..i + 1] == ms[..i] + [ms[i]];
    UndeliveredAppend(ms[..i], delivered, ms[i], ok);
    UndeliveredLength(ms[..i], delivered);
  }

  /** How offering a message ends: accepted, refused by all, or raising. */
  datatype Offer = Offer(ok: bool, raised: bool, failures: Failures)

  /** Offering a message to the partners from the `i`-th on, until one accepts. */
  function Offered(s: Settings, partners: seq<string>, failures: Failures, world: nat -> Turn, i: nat): Offer
    requires i <= |partners|
    decreases |partners| - i
  {
    if i == |partners| then Offer(false, false, failures)
    else if !Available(s, failures, partners[i], world(i).checkedAt) then Offered(s, partners, failures, world, i + 1)
    else if Raises(s, failures, partners[i], world(i).ok) then Offer(false, true, failures)
    else
      var marked := Marked(s, failures, partners[i], world(i).ok, world(i).markedAt);
      if world(i).ok then Offer(true, false, marked) else Offered(s, partners, marked, world, i + 1)
  }

  /** A drain so far: which messages were delivered, the breakers, and whether it died. */
  datatype Draining = Draining(delivered: seq<bool>, failures: Failures, raised: bool)

  function Drained(s: Settings, partners: seq<string>, failures: Failures, world: nat -> (nat -> Turn), n: nat): (r: Draining)
    ensures if r.raised then |r.delivered| < n else |r.delivered| == n
  {
    if n == 0 then Draining([], failures, false)
    else
      var before := Drained(s, partners, failures, world, n - 1);
      if before.raised then before
      else
        var offered := Offered(s, partners, before.failures, world(n - 1), 0);
        if offered.raised then Draining(before.delivered, offered.failures, true)
        else Draining(before.delivered + [offered.ok], offered.failures, false)
  }

  class RelayClient {
    const partners: seq<string>
    const settings: Settings
    var queue: seq<Message>
    var failures: Failures

    ghost predicate Valid()
      reads this
    {
      settings.cap >= 1 && |queue| <= settings.cap
    }

    ghost function Model(): Client
      reads this
    {
      Client(queue, failures)
    }

    constructor (partners: seq<string>, settings: Settings)
      requires settings.cap >= 1
      ensures Valid() && this.partners == partners && this.settings == settings
      ensures Model() == Client([], map[])
    {
      this.partners, this.settings, queue, failures := partners, settings, [], map[];
    }

    method CheckAvailable(url: string, now: real) returns (yes: bool)
      ensures yes == Available(settings, failures, url, now)
    {
      if url !in failures {
        return true;
      }
      var info := failures[url];
      yes := info.fails < settings.maxRetry || now > info.until;
    }

    method MarkAccepted(url: string)
      modifies this`failures
      ensures failures == MarkOk(old(failures), url)
    {
      failures := failures - {url};
    }

    method MarkFailed(url: string, now: real) returns (raised: bool)
      modifies this`failures
      ensures failures == MarkFail(settings, old(failures), url, now)
      ensures raised == (Fails(old(failures), url) >= CountLimit(settings))
      ensures !raised ==> Fails(failures, url) == Fails(old(failures), url) + 1
    {
      var info := if url in failures then failures[url] else Breaker(0.0, 0);
      var fails := info.fails + 1;
      var until := 0.0;
      if fails >= settings.maxRetry {
        if fails - settings.maxRetry >= FLOAT_EXPONENTS {
          return true;
        }
        until := now + OpenPeriod(settings, fails);
      }
      failures := failures[url := Breaker(until, fails)];
      raised := false;
    }

    method QueueSafe(m: Message)
      requires Valid()
      modifies this`queue
      ensures Valid() && queue == Enqueue(old(queue), settings.cap, m)
    {
      if |queue| >= settings.cap {
        queue := queue[1..];
      }
      queue := queue + [m];
    }

    /** A post marks its own outcome; it raises when marking a failure does. */
    method Post(url: string, t: Turn) returns (ok: bool, raised: bool)
      modifies this`failures
      ensures ok == t.ok && raised == Raises(settings, old(failures), url, t.ok)
      ensures failures == Marked(settings, old(failures), url, t.ok, t.markedAt)
    {
      ok, raised := t.ok, false;
      if ok {
        MarkAccepted(url);
      } else {
        raised := MarkFailed(url, t.markedAt);
      }
    }

    /** `_dispatch`: every partner accepts the message or gets a copy queued, unless a mark raises. */
    method Dispatch(m: Message, world: nat -> Turn) returns (accepted: bool, raised: bool)
      requires Valid()
      modifies this
      ensures Valid() && Dispatching(Model(), raised) == Dispatched(settings, old(Model()), m, partners, world, |partners|)
      ensures accepted <==> SomeAccepts(settings, old(Model()), m, partners, world, |partners|)
    {
      accepted, raised := false, false;
      for i := 0 to |partners|
        invariant Valid() && Dispatching(Model(), raised) == Dispatched(settings, old(Model()), m, partners, world, i)
        invariant accepted <==> SomeAccepts(settings, old(Model()), m, partners, world, i)
      {
        assert SomeAccepts(settings, old(Model()), m, partners, world, i + 1) <==>
               SomeAccepts(settings, old(Model()), m, partners, world, i) || AcceptsAt(settings, old(Model()), m, partners, world, i);
        if !raised {
          var taken;
          taken, raised := DispatchOne(m, partners[i], world(i));
          accepted := accepted || taken;
        }
      }
    }

    /** The turn of one partner. */
    method DispatchOne(m: Message, url: string, t: Turn) returns (accepted: bool, raised: bool)
      requires Valid()
      modifies this
      ensures Valid() && Dispatching(Model(), raised) == DispatchTurn(settings, Dispatching(old(Model()), false), m, url, t)
      ensures accepted == (Available(settings, old(failures), url, t.checkedAt) && t.ok)
    {
      accepted, raised := false, false;
      var available := CheckAvailable(url, t.checkedAt);
      if !available {
        QueueSafe(m);
        return;
      }
      accepted, raised := Post(url, t);
      if raised {
        return;
      }
      if accepted {
        MarkAccepted(url);
      } else {
        QueueSafe(m);
      }
    }

    /** Try the partners in turn until one accepts. */
    method OfferAll(world: nat -> Turn) returns (ok: bool, raised: bool)
      modifies this`failures
      ensures Offer(ok, raised, failures) == Offered(settings, partners, old(failures), world, 0)
    {
      for i := 0 to |partners|
        invariant Offered(settings, partners, failures, world, i) == Offered(settings, partners, old(failures), world, 0)
      {
        var available := CheckAvailable(partners[i], world(i).checkedAt);
        if available {
          ok, raised := Post(partners[i], world(i));
          if ok || raised {
            return;
          }
        }
      }
      ok, raised := false, false;
    }

    /** One round of `drain_loop` without a concurrent dispatch: exactly the undelivered messages
        are left, in order.  When a mark raises, the message at hand and the rest are gone. */
    method DrainRound(world: nat -> (nat -> Turn)) returns (delivered: seq<bool>, raised: bool)
      requires Valid()
      modifies this
      ensures Valid() && Draining(delivered, failures, raised) == Drained(settings, partners, old(failures), world, |old(queue)|)
      ensures if raised then |delivered| < |old(queue)| else |delivered| == |old(queue)|
      ensures queue == Undelivered(old(queue)[..|delivered|], delivered)
    {
      var pending := queue;
      queue, delivered, raised := [], [], false;
      for i := 0 to |pending|
        invariant Valid() && !raised && Draining(delivered, failures, raised) == Drained(settings, partners, old(failures), world, i)
        invariant queue == Undelivered(pending[..i], delivered)
      {
        var ok;
        ok, raised := OfferAll(world(i));
        if raised {
          DrainedStays(settings, partners, old(failures), world, i + 1, |pending|);
          return;
        }
        UndeliveredStep(pending, i, delivered, ok);
        if !ok {
          QueueSafe(pending[i]);
        }
        delivered := delivered + [ok];
      }
    }
  }

  // ---- what an uninterrupted dispatch or offer comes to ----

  predicate DistinctUrls(partners: seq<string>) {
    forall i, j | 0 <= i < j < |partners| :: partners[i] != partners[j]
  }

  /** Partner `i` is not skipped, and accepts. */
  predicate Takes(s: Settings, failures: Failures, partners: seq<string>, world: nat -> Turn, i: nat)
    requires i < |partners|
  {
    Available(s, failures, partners[i], world(i).checkedAt) && world(i).ok
  }

  /** No failure is one too many to count. */
  predicate Countable(s: Settings, failures: Failures) {
    forall url | url in failures :: failures[url].fails < s.maxRetry + 1023
  }

  lemma OtherUrl(s: Settings, failures: Failures, url: string, ok: bool, now: real, u: string)
    requires u != url
    ensures u in Marked(s, failures, url, ok, now) <==> u in failures
    ensures u in failures ==> Marked(s, failures, url, ok, now)[u] == failures[u]
  {
    hide Period;
  }

  /** What later partners see of the breakers is what there was at the start. */
  ghost predicate SameFrom(failures: Failures, now: Failures, partners: seq<string>, i: nat) {
    forall k | i <= k < |partners| ::
      (partners[k] in now <==> partners[k] in failures) && (partners[k] in failures ==> now[partners[k]] == failures[partners[k]])
  }

  lemma MarkedSameFrom(s: Settings, failures: Failures, now: Failures, partners: seq<string>, i: nat, ok: bool, at: real)
    requires i < |partners| && DistinctUrls(partners) && SameFrom(failures, now, partners, i)
    ensures SameFrom(failures, Marked(s, now, partners[i], ok, at), partners, i + 1)
  {
    hide Marked;
    forall k | i < k < |partners| {
      OtherUrl(s, now, partners[i], ok, at, partners[k]);
    }
  }

  lemma CountableHere(s: Settings, failures: Failures, now: Failures, partners: seq<string>, i: nat, ok: bool)
    requires i < |partners| && SameFrom(failures, now, partners, i) && Countable(s, failures)
    ensures !Raises(s, now, partners[i], ok)
  {
  }

  /** With distinct partners and countable failures, an offer succeeds exactly when some partner that is
      not skipped accepts, and it never raises. */
  lemma {:induction false} OfferIff(s: Settings, partners: seq<string>, failures: Failures, now: Failures, world: nat -> Turn, i: nat)
    requires i <= |partners| && DistinctUrls(partners) && Countable(s, failures) && SameFrom(failures, now, partners, i)
    ensures var r := Offered(s, partners, now, world, i);
            !r.raised && (r.ok <==> exists k | i <= k < |partners| :: Takes(s, failures, partners, world, k))
    decreases |partners| - i
  {
    hide Marked, Raises, Countable;
    if i < |partners| {
      var marked := Marked(s, now, partners[i], world(i).ok, world(i).markedAt);
      CountableHere(s, failures, now, partners, i, world(i).ok);
      MarkedSameFrom(s, failures, now, partners, i, world(i).ok, world(i).markedAt);
      assert Takes(s, failures, partners, world, i) <==> Available(s, now, partners[i], world(i).checkedAt) && world(i).ok;
      if !Available(s, now, partners[i], world(i).checkedAt) {
        OfferIff(s, partners, failures, now, world, i + 1);
      } else if !world(i).ok {
        OfferIff(s, partners, failures, marked, world, i + 1);
      }
    }
  }

  /** The partners among the first `n` that do not take the message. */
  function Misses(s: Settings, failures: Failures, partners: seq<string>, world: nat -> Turn, n: nat): nat
    requires n <= |partners|
  {
    if n == 0 then 0
    else Misses(s, failures, partners, world, n - 1) + if Takes(s, failures, partners, world, n - 1) then 0 else 1
  }

  function Copies(m: Message, n: nat): seq<Message> {
    seq(n, _ => m)
  }

  /** The queue after some copies of `m`: they are last, and what no longer fits left at the front. */
  ghost predicate QueuedCopies(before: seq<Message>, after: seq<Message>, cap: nat, m: Message, n: nat) {
    exists out: seq<Message> :: out + after == before + Copies(m, n) && |after| <= cap && (out != [] ==> |after| == cap)
  }

  lemma OneMoreCopy(before: seq<Message>, after: seq<Message>, cap: nat, m: Message, n: nat)
    requires cap >= 1 && QueuedCopies(before, after, cap, m, n)
    ensures QueuedCopies(before, Enqueue(after, cap, m), cap, m, n + 1)
  {
    var out: seq<Message> :| out + after == before + Copies(m, n) && |after| <= cap && (out != [] ==> |after| == cap);
    EnqueueOrder(after, cap, m);
    hide Enqueue, Evicted;
    Regroup(out, Evicted(after, cap), Enqueue(after, cap, m), after, before, Copies(m, n), [m]);
    assert Copies(m, n) + [m] == Copies(m, n + 1);
    var more := out + Evicted(after, cap);
    assert more + Enqueue(after, cap, m) == before + Copies(m, n + 1);
  }

  lemma Regroup(out: seq<Message>, left: seq<Message>, queue: seq<Message>, after: seq<Message>, before: seq<Message>,
                copies: seq<Message>, one: seq<Message>)
    requires left + queue == after + one && out + after == before + copies
    ensures (out + left) + queue == before + (copies + one)
  {
    assert (out + left) + queue == out + (left + queue);
    assert out + (after + one) == (out + after) + one;
    assert (before + copies) + one == before + (copies + one);
  }

  /** With distinct partners and countable failures, a dispatch never raises, and queues exactly one copy
      for each partner that is skipped or does not accept. */
  lemma {:induction false} DispatchIff(s: Settings, c: Client, m: Message, partners: seq<string>, world: nat -> Turn, n: nat)
    requires s.cap >= 1 && |c.queue| <= s.cap && n <= |partners| && DistinctUrls(partners) && Countable(s, c.failures)
    ensures var d := Dispatched(s, c, m, partners, world, n);
            && !d.raised && SameFrom(c.failures, d.client.failures, partners, n)
            && QueuedCopies(c.queue, d.client.queue, s.cap, m, Misses(s, c.failures, partners, world, n))
    ensures SomeAccepts(s, c, m, partners, world, n) <==> exists k | 0 <= k < n :: Takes(s, c.failures, partners, world, k)
  {
    hide DispatchTurn, Countable, Enqueue, QueuedCopies, SameFrom, Available, AcceptsAt;
    if n == 0 {
      NoCopies(c.queue, s.cap, m);
      SameAtStart(c.failures, partners);
    } else {
      var before := Dispatched(s, c, m, partners, world, n - 1);
      DispatchIff(s, c, m, partners, world, n - 1);
      OneTurn(s, c.failures, before, m, partners, world, n - 1);
      AcceptsTakes(s, c, m, partners, world, n - 1);
      OneMoreCopy(c.queue, before.client.queue, s.cap, m, Misses(s, c.failures, partners, world, n - 1));
      assert SomeAccepts(s, c, m, partners, world, n) <==> SomeAccepts(s, c, m, partners, world, n - 1) || AcceptsAt(s, c, m, partners, world, n - 1);
    }
  }

  lemma SameAtStart(failures: Failures, partners: seq<string>)
    ensures SameFrom(failures, failures, partners, 0)
  {
  }

  lemma AcceptsTakes(s: Settings, c: Client, m: Message, partners: seq<string>, world: nat -> Turn, i: nat)
    requires s.cap >= 1 && i < |partners|
    requires var d := Dispatched(s, c, m, partners, world, i); !d.raised && SameFrom(c.failures, d.client.failures, partners, i)
    ensures AcceptsAt(s, c, m, partners, world, i) <==> Takes(s, c.failures, partners, world, i)
  {
    hide Dispatched;
  }

  /** One turn queues a copy exactly when its partner does not take the message. */
  lemma OneTurn(s: Settings, failures: Failures, d: Dispatching, m: Message, partners: seq<string>, world: nat -> Turn, i: nat)
    requires s.cap >= 1 && i < |partners| && DistinctUrls(partners) && Countable(s, failures)
    requires !d.raised && SameFrom(failures, d.client.failures, partners, i)
    ensures var after := DispatchTurn(s, d, m, partners[i], world(i));
            && !after.raised && SameFrom(failures, after.client.failures, partners, i + 1)
            && after.client.queue == if Takes(s, failures, partners, world, i) then d.client.queue else Enqueue(d.client.queue, s.cap, m)
  {
    CountableHere(s, failures, d.client.failures, partners, i, world(i).ok);
    MarkedSameFrom(s, failures, d.client.failures, partners, i, world(i).ok, world(i).markedAt);
    hide Marked, Raises, Countable, Enqueue;
  }

  lemma NoCopies(queue: seq<Message>, cap: nat, m: Message)
    requires |queue| <= cap
    ensures QueuedCopies(queue, queue, cap, m, 0)
  {
    assert [] + queue == queue + Copies(m, 0);
  }

  // ---- what they leave in the breakers ----

  ghost predicate SameBreaker(before: Failures, after: Failures, url: string) {
    (url in before <==> url in after) && (url in before ==> before[url] == after[url])
  }

  /** A turn leaves the breaker of a partner that is skipped, clears that of one that accepts, and counts a
      failure of any other. */
  ghost predicate TurnMark(s: Settings, before: Failures, after: Failures, url: string, t: Turn) {
    if !Available(s, before, url, t.checkedAt) then SameBreaker(before, after, url)
    else if t.ok then url !in after
    else url in after && url in MarkFail(s, before, url, t.markedAt) && after[url] == MarkFail(s, before, url, t.markedAt)[url]
  }

  lemma OneMark(s: Settings, failures: Failures, now: Failures, url: string, t: Turn)
    requires SameBreaker(failures, now, url) && Fails(failures, url) < s.maxRetry + 1023
    ensures var after := if Available(s, now, url, t.checkedAt) then Marked(s, now, url, t.ok, t.markedAt) else now;
            TurnMark(s, failures, after, url, t) && forall u | u != url :: SameBreaker(now, after, u)
  {
    hide Period;
  }

  lemma SameMark(s: Settings, before: Failures, after: Failures, last: Failures, url: string, t: Turn)
    requires TurnMark(s, before, after, url, t) && SameBreaker(after, last, url)
    ensures TurnMark(s, before, last, url, t)
  {
    hide MarkFail, Available;
  }

  lemma CountHere(s: Settings, failures: Failures, url: string)
    requires Countable(s, failures)
    ensures Fails(failures, url) < s.maxRetry + 1023
  {
  }

  /** A dispatch leaves each partner's breaker as its turn marks it, and every other breaker as it was. */
  lemma {:induction false} DispatchBreakers(s: Settings, c: Client, m: Message, partners: seq<string>, world: nat -> Turn, n: nat)
    requires s.cap >= 1 && |c.queue| <= s.cap && n <= |partners| && DistinctUrls(partners) && Countable(s, c.failures)
    ensures var after := Dispatched(s, c, m, partners, world, n).client.failures;
            && (forall k | 0 <= k < n :: TurnMark(s, c.failures, after, partners[k], world(k)))
            && forall url | url !in partners[..n] :: SameBreaker(c.failures, after, url)
  {
    hide TurnMark, Countable, SameFrom, Available, Marked, Enqueue, QueuedCopies, Misses;
    if n > 0 {
      var d, t := Dispatched(s, c, m, partners, world, n - 1), world(n - 1);
      var after := Dispatched(s, c, m, partners, world, n).client.failures;
      DispatchBreakers(s, c, m, partners, world, n - 1);
      DispatchIff(s, c, m, partners, world, n - 1);
      CountableHere(s, c.failures, d.client.failures, partners, n - 1, t.ok);
      CountHere(s, c.failures, partners[n - 1]);
      assert partners[n - 1] !in partners[..n - 1];
      OneMark(s, c.failures, d.client.failures, partners[n - 1], t);
      forall k | 0 <= k < n - 1 ensures TurnMark(s, c.failures, after, partners[k], world(k)) {
        SameMark(s, c.failures, d.client.failures, after, partners[k], world(k));
      }
      forall url | url !in partners[..n] ensures SameBreaker(c.failures, after, url) {
        assert partners[n - 1] in partners[..n];
        assert url !in partners[..n - 1];
      }
    }
  }

  /** An offer does so up to the first partner that takes the message, and leaves every other breaker. */
  lemma {:induction false} OfferBreakers(s: Settings, partners: seq<string>, failures: Failures, now: Failures, world: nat -> Turn, i: nat)
    requires i <= |partners| && DistinctUrls(partners) && Countable(s, failures) && SameFrom(failures, now, partners, i)
    ensures var after := Offered(s, partners, now, world, i).failures;
            && (forall k | i <= k < |partners| ::
                  if exists j | i <= j < k :: Takes(s, failures, partners, world, j) then SameBreaker(failures, after, partners[k])
                  else TurnMark(s, failures, after, partners[k], world(k)))
            && forall url | url !in partners[i..] :: SameBreaker(now, after, url)
    decreases |partners| - i
  {
    hide TurnMark, Countable, SameFrom, Available, Marked, Takes, Raises;
    if i < |partners| {
      var t := world(i);
      var marked := if Available(s, now, partners[i], t.checkedAt) then Marked(s, now, partners[i], t.ok, t.markedAt) else now;
      var after := Offered(s, partners, now, world, i).failures;
      CountableHere(s, failures, now, partners, i, t.ok);
      CountHere(s, failures, partners[i]);
      SameHere(failures, now, partners, i);
      OneMark(s, failures, now, partners[i], t);
      TakesHere(s, failures, now, partners, world, i);
      if Takes(s, failures, partners, world, i) {
        OthersSame(failures, now, marked, partners, i);
      } else {
        NextSame(s, failures, now, partners, world, i);
        OfferBreakers(s, partners, failures, marked, world, i + 1);
        assert partners[i] !in partners[i + 1..];
        SameMark(s, failures, marked, after, partners[i], t);
        forall url | url !in partners[i..] ensures SameBreaker(now, after, url) {
          assert partners[i] == partners[i..][0] && partners[i + 1..] == partners[i..][1..];
          assert url != partners[i] && url !in partners[i + 1..];
          assert SameBreaker(now, marked, url) && SameBreaker(marked, after, url);
        }
      }
    }
  }

  lemma TakesHere(s: Settings, failures: Failures, now: Failures, partners: seq<string>, world: nat -> Turn, i: nat)
    requires i < |partners| && SameBreaker(failures, now, partners[i])
    ensures Takes(s, failures, partners, world, i) <==> Available(s, now, partners[i], world(i).checkedAt) && world(i).ok
  {
  }

  lemma NextSame(s: Settings, failures: Failures, now: Failures, partners: seq<string>, world: nat -> Turn, i: nat)
    requires i < |partners| && DistinctUrls(partners) && SameFrom(failures, now, partners, i)
    ensures var t := world(i);
            var marked := if Available(s, now, partners[i], t.checkedAt) then Marked(s, now, partners[i], t.ok, t.markedAt) else now;
            SameFrom(failures, marked, partners, i + 1)
  {
    MarkedSameFrom(s, failures, now, partners, i, world(i).ok, world(i).markedAt);
    hide Marked, Available;
  }

  lemma OthersSame(failures: Failures, now: Failures, after: Failures, partners: seq<string>, i: nat)
    requires i < |partners| && DistinctUrls(partners) && SameFrom(failures, now, partners, i)
    requires forall u | u != partners[i] :: SameBreaker(now, after, u)
    ensures forall k | i < k < |partners| :: SameBreaker(failures, after, partners[k])
    ensures forall url | url !in partners[i..] :: SameBreaker(now, after, url)
  {
    forall k | i < k < |partners| ensures SameBreaker(failures, after, partners[k]) {
      assert partners[k] != partners[i];
      assert SameBreaker(now, after, partners[k]);
    }
    assert partners[i] == partners[i..][0];
  }

  lemma SameHere(failures: Failures, now: Failures, partners: seq<string>, i: nat)
    requires i < |partners| && SameFrom(failures, now, partners, i)
    ensures SameBreaker(failures, now, partners[i])
  {
  }

  // ---- what a round of the drain leaves ----

  /** `left` is the messages at the places, which increase. */
  ghost predicate LeftAt(ms: seq<Message>, left: seq<Message>, places: seq<nat>) {
    && |places| == |left| && (forall j, k | 0 <= j < k < |places| :: places[j] < places[k])
    && (forall k | 0 <= k < |places| :: places[k] < |ms| && left[k] == ms[places[k]])
  }

  ghost predicate LeavesExactly(ms: seq<Message>, left: seq<Message>, delivered: seq<bool>)
    requires |ms| == |delivered|
  {
    exists places: seq<nat> :: LeftAt(ms, left, places) && forall i: nat :: i in places <==> i < |ms| && !delivered[i]
  }

  lemma {:induction false} UndeliveredPlaces(ms: seq<Message>, delivered: seq<bool>)
    requires |ms| == |delivered|
    ensures LeavesExactly(ms, Undelivered(ms, delivered), delivered)
  {
    if ms == [] {
      assert LeftAt(ms, [], []);
    } else {
      var n := |ms| - 1;
      UndeliveredPlaces(ms[..n], delivered[..n]);
      var left := Undelivered(ms[..n], delivered[..n]);
      var places: seq<nat> :| LeftAt(ms[..n], left, places) && forall i: nat :: i in places <==> i < n && !delivered[..n][i];
      OneMorePlace(ms, delivered, left, places);
    }
  }

  lemma OneMorePlace(ms: seq<Message>, delivered: seq<bool>, left: seq<Message>, places: seq<nat>)
    requires ms != [] && |ms| == |delivered| && LeftAt(ms[..|ms| - 1], left, places)
    requires forall i: nat :: i in places <==> i < |ms| - 1 && !delivered[..|ms| - 1][i]
    ensures LeavesExactly(ms, left + if delivered[|ms| - 1] then [] else [ms[|ms| - 1]], delivered)
  {
    var n := |ms| - 1;
    if delivered[n] {
      assert left + [] == left;
      assert LeftAt(ms, left, places);
    } else {
      assert LeftAt(ms, left + [ms[n]], places + [n]);
      assert forall i: nat :: i in places + [n] <==> i in places || i == n;
    }
  }

  /** Message k was offered with the breakers that the messages before it left. */
  lemma {:induction false} DrainedSays(s: Settings, partners: seq<string>, failures: Failures, world: nat -> (nat -> Turn), n: nat, k: nat)
    requires k < n && !Drained(s, partners, failures, world, n).raised
    ensures var before := Drained(s, partners, failures, world, k);
            var offered := Offered(s, partners, before.failures, world(k), 0);
            && !before.raised && !offered.raised && Drained(s, partners, failures, world, n).delivered[k] == offered.ok
            && Drained(s, partners, failures, world, k + 1).failures == offered.failures
    ensures Drained(s, partners, failures, world, 0).failures == failures
  {
    hide Offered;
    if k < n - 1 {
      DrainedSays(s, partners, failures, world, n - 1, k);
    }
  }

  /** Some partner takes message i, with the breakers that the messages before it left. */
  predicate Taken(s: Settings, partners: seq<string>, failures: Failures, world: nat -> (nat -> Turn), i: nat) {
    Offered(s, partners, Drained(s, partners, failures, world, i).failures, world(i), 0).ok
  }

  lemma TakenIs(s: Settings, partners: seq<string>, failures: Failures, world: nat -> (nat -> Turn), n: nat, i: nat)
    requires i < n && !Drained(s, partners, failures, world, n).raised
    ensures Drained(s, partners, failures, world, n).delivered[i] == Taken(s, partners, failures, world, i)
  {
    hide Offered, Drained;
    DrainedSays(s, partners, failures, world, n, i);
  }

  /** A round that no error ends leaves exactly the messages that no partner took in their turn, in order. */
  lemma RoundLeaves(s: Settings, partners: seq<string>, failures: Failures, world: nat -> (nat -> Turn), ms: seq<Message>)
    requires !Drained(s, partners, failures, world, |ms|).raised
    ensures var left := Undelivered(ms, Drained(s, partners, failures, world, |ms|).delivered);
            exists places: seq<nat> ::
              LeftAt(ms, left, places)
              && forall i: nat | i < |ms| :: i in places <==> !Taken(s, partners, failures, world, i)
  {
    hide Taken, Drained, Undelivered, LeftAt;
    var delivered := Drained(s, partners, failures, world, |ms|).delivered;
    UndeliveredPlaces(ms, delivered);
    forall i: nat | i < |ms| ensures delivered[i] == Taken(s, partners, failures, world, i) {
      TakenIs(s, partners, failures, world, |ms|, i);
    }
    var places: seq<nat> :|
      LeftAt(ms, Undelivered(ms, delivered), places) && forall i: nat :: i in places <==> i < |ms| && !delivered[i];
    assert LeftAt(ms, Undelivered(ms, delivered), places);
    assert forall i: nat | i < |ms| :: i in places <==> !Taken(s, partners, failures, world, i);
  }

  lemma {:induction false} DrainedStays(s: Settings, partners: seq<string>, failures: Failures, world: nat -> (nat -> Turn), i: nat, n: nat)
    requires i <= n && Drained(s, partners, failures, world, i).raised
    ensures Drained(s, partners, failures, world, n) == Drained(s, partners, failures, world, i)
  {
    if i < n {
      DrainedStays(s, partners, failures, world, i, n - 1);
    }
  }
}
