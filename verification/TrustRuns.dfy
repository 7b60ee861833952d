/** Replay protection over whole runs of `verify` calls and restarts. */
module TrustRuns {
  import opened Json
  import opened Results
  import opened Signing
  import opened Trust

  datatype Step =
    | Check(message: Json, expected: Option<string>, now: real, saveTime: real)
    | Restart

  /** `accepted` is the history of accepted (nonce, time) pairs, `clock` the last time read. */
  datatype State = State(nonces: seq<Entry>, accepted: seq<Entry>, clock: real)

  function Next(c: Config, s: State, step: Step): State {
    match step
    case Restart => s.(nonces := Reloaded(s.nonces))
    case Check(message, expected, now, saveTime) =>
      var (nonces, verdict) := Verify(c, s.nonces, message, expected, now, saveTime);
      var screened := Screen(c.platform, c.meshKey, c.window, message, expected, now);
      State(nonces, if verdict.Verified? then s.accepted + [Entry(screened.nonce, screened.ts)] else s.accepted, saveTime)
  }

  function Run(c: Config, start: real, steps: seq<Step>): State {
    if steps == [] then State([], [], start)
    else Next(c, Run(c, start, steps[..|steps| - 1]), steps[|steps| - 1])
  }

  /** No clock reading is below an earlier one. */
  predicate Monotone(start: real, steps: seq<Step>) {
    steps == [] ||
    var before, last := steps[..|steps| - 1], steps[|steps| - 1];
    Monotone(start, before) && (last.Check? ==> LastTime(start, before) <= last.now <= last.saveTime)
  }

  function LastTime(start: real, steps: seq<Step>): real {
    if steps == [] then start
    else
      match steps[|steps| - 1]
      case Restart => LastTime(start, steps[..|steps| - 1])
      case Check(_, _, _, saveTime) => saveTime
  }

  ghost function Between(history: seq<Entry>, lo: real, hi: real): set<Entry> {
    set e | e in history && lo <= e.ts <= hi
  }

  /** At most `limit` accepted messages have their time in any window of length `span`. */
  ghost predicate Capped(history: seq<Entry>, span: real, limit: nat) {
    forall lo, hi | hi - lo <= span :: |Between(history, lo, hi)| <= limit
  }

  /** Everything accepted and at most `age` old is still in the store. */
  ghost predicate Retains(c: Config, s: State, age: real) {
    && DistinctNonces(s.nonces)
    && (forall e | e in s.nonces :: e in s.accepted)
    && (forall e | e in s.accepted :: e.ts <= s.clock + c.window as real)
    && (forall e | e in s.accepted && s.clock - e.ts <= age :: e in s.nonces)
  }

  /** Messages that share a nonce have times more than `gap` apart, the later one the newer. */
  ghost predicate Spaced(history: seq<Entry>, gap: real) {
    forall i, j | 0 <= i < j < |history| && history[i].nonce == history[j].nonce :: history[j].ts > history[i].ts + gap
  }

  lemma CappedPrefix(history: seq<Entry>, e: Entry, span: real, limit: nat)
    requires Capped(history + [e], span, limit)
    ensures Capped(history, span, limit)
  {
    forall lo, hi | hi - lo <= span ensures |Between(history, lo, hi)| <= limit {
      assert Between(history, lo, hi) <= Between(history + [e], lo, hi);
      CardinalityMonotone(Between(history, lo, hi), Between(history + [e], lo, hi));
      assert |Between(history + [e], lo, hi)| <= limit;
    }
  }

  /** What a step does to the store and to the history. */
  lemma NextShape(c: Config, s: State, step: Step)
    ensures var after := Next(c, s, step);
            && after.clock == (if step.Check? then step.saveTime else s.clock)
            && if after.accepted == s.accepted then after.nonces == if step.Restart? then Reloaded(s.nonces) else s.nonces
               else
                 && step.Check? && |after.accepted| == |s.accepted| + 1
                 && var x := after.accepted[|s.accepted|];
                    && after.accepted == s.accepted + [x] && !Holds(s.nonces, x.nonce)
                    && after.nonces == Kept(s.nonces + [x], step.saveTime, c.window, c.nonceLimit)
  {
    hide Screen, Kept;
  }

  lemma DistinctAdded(nonces: seq<Entry>, x: Entry)
    requires DistinctNonces(nonces) && !Holds(nonces, x.nonce)
    ensures DistinctNonces(nonces + [x])
  {
    assert forall e | e in nonces :: e.nonce != x.nonce;
  }

  /** The save after an acceptance keeps what is at most `age` old, when the history is capped. */
  lemma SaveRetains(c: Config, nonces: seq<Entry>, history: seq<Entry>, now: real, age: real, x: Entry)
    requires DistinctNonces(nonces) && forall e | e in nonces :: e in history
    requires forall e | e in history :: e.ts <= now + c.window as real
    requires age <= 4.0 * c.window as real
    requires Capped(history, age + c.window as real, c.nonceLimit)
    requires x in nonces && now - x.ts <= age
    ensures x in Kept(nonces, now, c.window, c.nonceLimit)
  {
    var live, kept := Live(nonces, now, c.window), Kept(nonces, now, c.window, c.nonceLimit);
    KeptFacts(nonces, now, c.window, c.nonceLimit);
    if x !in kept {
      DistinctCount(kept);
      var newer := Members(kept) + {x};
      var window := Between(history, x.ts, now + c.window as real);
      assert newer <= window;
      CardinalityMonotone(newer, window);
    }
  }

  lemma FreshIsYoung(c: Config, message: Json, expected: Option<string>, now: real)
    requires Screen(c.platform, c.meshKey, c.window, message, expected, now).Fresh?
    ensures Abs(now - Screen(c.platform, c.meshKey, c.window, message, expected, now).ts) <= c.window as real
  {
  }

  lemma AcceptanceRetains(c: Config, s: State, message: Json, expected: Option<string>, now: real, saveTime: real, age: real)
    requires 0.0 <= age <= 4.0 * c.window as real
    requires Retains(c, s, age) && s.clock <= now <= saveTime
    requires Verify(c, s.nonces, message, expected, now, saveTime).1.Verified?
    requires Capped(Next(c, s, Check(message, expected, now, saveTime)).accepted, age + c.window as real, c.nonceLimit)
    ensures Retains(c, Next(c, s, Check(message, expected, now, saveTime)), age)
  {
    FreshIsYoung(c, message, expected, now);
    NextShape(c, s, Check(message, expected, now, saveTime));
    hide Screen, Kept, Capped, Live;
    var t := Next(c, s, Check(message, expected, now, saveTime));
    var e := t.accepted[|s.accepted|];
    var added := s.nonces + [e];
    DistinctAdded(s.nonces, e);
    KeptFacts(added, saveTime, c.window, c.nonceLimit);
    forall x | x in t.accepted && saveTime - x.ts <= age ensures x in t.nonces {
      assert x in added;
      SaveRetains(c, added, t.accepted, saveTime, age, x);
    }
  }

  lemma AcceptanceSpaces(c: Config, s: State, message: Json, expected: Option<string>, now: real, saveTime: real, age: real)
    requires Retains(c, s, age) && s.clock <= now <= saveTime
    requires Spaced(s.accepted, age - c.window as real)
    requires Verify(c, s.nonces, message, expected, now, saveTime).1.Verified?
    ensures Spaced(Next(c, s, Check(message, expected, now, saveTime)).accepted, age - c.window as real)
  {
    FreshIsYoung(c, message, expected, now);
    hide Screen, Kept;
    var history := Next(c, s, Check(message, expected, now, saveTime)).accepted;
    var n := |s.accepted|;
    forall i | 0 <= i < n && history[i].nonce == history[n].nonce
      ensures history[n].ts > history[i].ts + (age - c.window as real)
    {
      assert history[i] == s.accepted[i] && history[i] !in s.nonces;
    }
  }

  /** The invariant of a run, for any `age` up to four windows. */
  lemma {:induction false} RunRetains(c: Config, start: real, steps: seq<Step>, age: real)
    requires Monotone(start, steps) && 0.0 <= age <= 4.0 * c.window as real
    requires Capped(Run(c, start, steps).accepted, age + c.window as real, c.nonceLimit)
    ensures var s := Run(c, start, steps);
            && Retains(c, s, age) && Spaced(s.accepted, age - c.window as real)
            && s.clock == LastTime(start, steps)
  {
    if steps != [] {
      var before, last := steps[..|steps| - 1], steps[|steps| - 1];
      var s := Run(c, start, before);
      var t := Next(c, s, last);
      if t.accepted != s.accepted {
        CappedPrefix(s.accepted, t.accepted[|s.accepted|], age + c.window as real, c.nonceLimit);
      }
      RunRetains(c, start, before, age);
      match last {
        case Restart =>
          SortedPermutes(s.nonces, KeyAtMost);
          PermutedDistinct(s.nonces, t.nonces);
          forall e ensures e in t.nonces <==> e in s.nonces {
            assert e in multiset(t.nonces) <==> e in multiset(s.nonces);
          }
        case Check(message, expected, now, saveTime) =>
          if Verify(c, s.nonces, message, expected, now, saveTime).1.Verified? {
            AcceptanceRetains(c, s, message, expected, now, saveTime, age);
            AcceptanceSpaces(c, s, message, expected, now, saveTime, age);
          }
      }
    }
  }

  /** With at most `nonceLimit` accepted messages in any two windows of message time, no envelope
      is accepted twice, whatever restarts happen. */
  lemma NoEnvelopeAcceptedTwice(c: Config, start: real, steps: seq<Step>)
    requires Monotone(start, steps)
    requires Capped(Run(c, start, steps).accepted, 2.0 * c.window as real, c.nonceLimit)
    ensures var history := Run(c, start, steps).accepted;
            forall i, j | 0 <= i < j < |history| :: history[i] != history[j]
  {
    RunRetains(c, start, steps, c.window as real);
  }

  /** With the cap on five windows, messages sharing a nonce are more than three windows apart. */
  lemma NonceReuseThreeWindowsApart(c: Config, start: real, steps: seq<Step>)
    requires Monotone(start, steps)
    requires Capped(Run(c, start, steps).accepted, 5.0 * c.window as real, c.nonceLimit)
    ensures Spaced(Run(c, start, steps).accepted, 3.0 * c.window as real)
  {
    RunRetains(c, start, steps, 4.0 * c.window as real);
  }

  /** With the cap on five windows no save of the run evicts by count: what it drops is old. */
  lemma NothingEvictedByCount(c: Config, start: real, steps: seq<Step>, k: nat)
    requires Monotone(start, steps) && k < |steps| && steps[k].Check?
    requires Capped(Run(c, start, steps).accepted, 5.0 * c.window as real, c.nonceLimit)
    ensures var before, after := Run(c, start, steps[..k]), Run(c, start, steps[..k + 1]);
            forall e | e in before.nonces && e !in after.nonces :: steps[k].saveTime - e.ts > 4.0 * c.window as real
  {
    PrefixOfRun(c, start, steps, k + 1);
    RunRetains(c, start, steps[..k + 1], 4.0 * c.window as real);
    assert steps[..k + 1][..k] == steps[..k];
    var before, after := Run(c, start, steps[..k]), Run(c, start, steps[..k + 1]);
    assert after == Next(c, before, steps[k]);
    if after.accepted != before.accepted {
      CappedPrefix(before.accepted, after.accepted[|before.accepted|], 5.0 * c.window as real, c.nonceLimit);
    }
    RunRetains(c, start, steps[..k], 4.0 * c.window as real);
    forall e | e in before.nonces && e !in after.nonces ensures steps[k].saveTime - e.ts > 4.0 * c.window as real {
      assert e in before.accepted && e in after.accepted;
    }
  }

  lemma {:induction false} PrefixOfRun(c: Config, start: real, steps: seq<Step>, k: nat)
    requires k <= |steps| && Monotone(start, steps)
    requires Capped(Run(c, start, steps).accepted, 5.0 * c.window as real, c.nonceLimit)
    ensures Monotone(start, steps[..k])
    ensures Capped(Run(c, start, steps[..k]).accepted, 5.0 * c.window as real, c.nonceLimit)
    decreases |steps|
  {
    if k == |steps| {
      assert steps[..k] == steps;
    } else {
      var before := steps[..|steps| - 1];
      var s, t := Run(c, start, before), Run(c, start, steps);
      if t.accepted != s.accepted {
        CappedPrefix(s.accepted, t.accepted[|s.accepted|], 5.0 * c.window as real, c.nonceLimit);
      }
      PrefixOfRun(c, start, before, k);
      assert before[..k] == steps[..k];
    }
  }

  // ---- above the cap ----

  function Checks(messages: seq<Json>, now: real): (r: seq<Step>)
    ensures |r| == |messages|
  {
    seq(|messages|, i requires 0 <= i < |messages| => Check(messages[i], None, now, now))
  }

  /** What the store remembers of messages that are fresh. */
  function Entries(c: Config, messages: seq<Json>, now: real): (r: seq<Entry>)
    requires AllFresh(c, messages, now)
    ensures |r| == |messages|
    ensures forall i | 0 <= i < |r| :: Abs(now - r[i].ts) <= c.window as real
  {
    seq(|messages|, i requires 0 <= i < |messages| => EntryOf(c, messages[i], now))
  }

  predicate FreshAt(c: Config, message: Json, now: real) {
    Screen(c.platform, c.meshKey, c.window, message, None, now).Fresh?
  }

  predicate AllFresh(c: Config, messages: seq<Json>, now: real) {
    forall i | 0 <= i < |messages| :: FreshAt(c, messages[i], now)
  }

  function EntryOf(c: Config, message: Json, now: real): (e: Entry)
    requires FreshAt(c, message, now)
    ensures Abs(now - e.ts) <= c.window as real
  {
    var screened := Screen(c.platform, c.meshKey, c.window, message, None, now);
    Entry(screened.nonce, screened.ts)
  }

  /** A fresh message whose nonce is not retained is accepted and recorded. */
  lemma NextAccepts(c: Config, s: State, message: Json, now: real)
    requires FreshAt(c, message, now) && !Holds(s.nonces, EntryOf(c, message, now).nonce)
    ensures var e := EntryOf(c, message, now);
            Next(c, s, Check(message, None, now, now)) ==
            State(Kept(s.nonces + [e], now, c.window, c.nonceLimit), s.accepted + [e], now)
  {
  }

  lemma {:induction false} AllLive(s: seq<Entry>, now: real, window: nat)
    requires forall y | y in s :: now - y.ts <= window as real * 4.0
    ensures Live(s, now, window) == s
  {
    if s != [] {
      AllLive(s[1..], now, window);
    }
  }

  /** Entries of fresh messages are all live. */
  lemma FreshAreLive(s: seq<Entry>, now: real, window: nat)
    requires forall i | 0 <= i < |s| :: Abs(now - s[i].ts) <= window as real
    ensures Live(s, now, window) == s
  {
    AllLive(s, now, window);
  }

  lemma AllKept(c: Config, s: seq<Entry>, now: real)
    requires |s| <= c.nonceLimit && forall i | 0 <= i < |s| :: Abs(now - s[i].ts) <= c.window as real
    ensures Kept(s, now, c.window, c.nonceLimit) == s
  {
    FreshAreLive(s, now, c.window);
    hide Live, Sorted;
  }

  /** Fresh messages with nonces of their own are all accepted, and up to the limit all retained. */
  lemma {:induction false} FreshAreAccepted(c: Config, messages: seq<Json>, now: real)
    requires AllFresh(c, messages, now) && DistinctNonces(Entries(c, messages, now))
    requires |messages| <= c.nonceLimit + 1
    ensures var entries := Entries(c, messages, now);
            Run(c, now, Checks(messages, now)) == State(Kept(entries, now, c.window, c.nonceLimit), entries, now)
    ensures Monotone(now, Checks(messages, now)) && LastTime(now, Checks(messages, now)) == now
  {
    hide Screen, Verify, Next, FreshAt, Kept, Live;
    if messages == [] {
      AllKept(c, [], now);
    } else {
      var n := |messages| - 1;
      var front, entries := messages[..n], Entries(c, messages, now);
      assert Entries(c, front, now) == entries[..n];
      assert Checks(messages, now)[..n] == Checks(front, now);
      FreshAreAccepted(c, front, now);
      AllKept(c, entries[..n], now);
      assert !Holds(entries[..n], entries[n].nonce);
      NextAccepts(c, State(entries[..n], entries[..n], now), messages[n], now);
      assert entries[..n] + [entries[n]] == entries;
    }
  }

  /** One live entry too many: the save drops the oldest. */
  lemma OldestDropped(s: seq<Entry>, now: real, window: nat, limit: nat)
    requires |s| == limit + 1 && DistinctNonces(s)
    requires forall i | 0 <= i < |s| :: Abs(now - s[i].ts) <= window as real
    requires forall i | 0 < i < |s| :: s[0].ts < s[i].ts
    ensures !Holds(Kept(s, now, window, limit), s[0].nonce)
  {
    FreshAreLive(s, now, window);
    KeptFacts(s, now, window, limit);
    var kept := Kept(s, now, window, limit);
    if e :| e in kept && e.nonce == s[0].nonce {
      assert e == s[0];
      forall d | d in s ensures d in kept {
      }
      EvictsExactlyWhenOverfull(s, now, window, limit);
    }
  }

  /** Whatever the limit, one accepted message more in the window loses the protection: of
      `nonceLimit + 1` fresh messages with nonces of their own the oldest is accepted again. */
  lemma ReplayAcceptedAboveCap(c: Config, messages: seq<Json>, now: real)
    requires |messages| == c.nonceLimit + 1 && AllFresh(c, messages, now)
    requires DistinctNonces(Entries(c, messages, now))
    requires forall i | 0 < i < |messages| :: Entries(c, messages, now)[0].ts < Entries(c, messages, now)[i].ts
    ensures var steps := Checks(messages + [messages[0]], now);
            var entries := Entries(c, messages, now);
            Monotone(now, steps) && Run(c, now, steps).accepted == entries + [entries[0]]
  {
    hide Screen, Verify, Next, FreshAt, Kept;
    var n, entries := |messages|, Entries(c, messages, now);
    var steps := Checks(messages + [messages[0]], now);
    assert steps[..n] == Checks(messages, now);
    FreshAreAccepted(c, messages, now);
    OldestDropped(entries, now, c.window, c.nonceLimit);
    NextAccepts(c, Run(c, now, steps[..n]), messages[0], now);
  }

  // ---- exactly when a message is accepted again ----

  /** The store holds at most the limit, and what it lacks of the young accepted entries was crowded
      out: it is full, and of entries that are at least as new. */
  ghost predicate Crowded(c: Config, s: State) {
    && DistinctNonces(s.nonces) && |s.nonces| <= c.nonceLimit
    && (forall e | e in s.nonces :: e in s.accepted)
    && (forall x | x in s.accepted && x !in s.nonces && s.clock - x.ts <= 4.0 * c.window as real :: CrowdedOut(c, s.nonces, x))
  }

  ghost predicate CrowdedOut(c: Config, nonces: seq<Entry>, x: Entry) {
    |nonces| == c.nonceLimit && forall y | y in nonces :: y.ts >= x.ts
  }

  /** A full store of entries at least as new as `x` stays one when an entry is added. */
  lemma StaysCrowded(c: Config, nonces: seq<Entry>, e: Entry, x: Entry, now: real)
    requires DistinctNonces(nonces + [e]) && CrowdedOut(c, nonces, x) && now - x.ts <= 4.0 * c.window as real
    ensures CrowdedOut(c, Kept(nonces + [e], now, c.window, c.nonceLimit), x)
  {
    hide Live, Kept, DistinctNonces;
    var all := nonces + [e];
    if now - e.ts <= 4.0 * c.window as real {
      AllLive(all, now, c.window);
      OneTooMany(c, nonces, e, x, now);
    } else {
      OldOneDropped(nonces, e, now, c.window);
      KeptAtMost(all, now, c.window, c.nonceLimit);
    }
  }

  lemma OldOneDropped(s: seq<Entry>, e: Entry, now: real, window: nat)
    requires DistinctNonces(s + [e]) && now - e.ts > 4.0 * window as real
    requires forall y | y in s :: now - y.ts <= 4.0 * window as real
    ensures |Live(s + [e], now, window)| == |s|
    ensures forall y :: y in Live(s + [e], now, window) <==> y in s
  {
    hide DistinctNonces;
    var live := Live(s + [e], now, window);
    DistinctFront(s, e);
    DistinctCount(s);
    DistinctCount(live);
    assert Members(live) == Members(s);
  }

  lemma DistinctFront(s: seq<Entry>, e: Entry)
    requires DistinctNonces(s + [e])
    ensures DistinctNonces(s)
  {
    assert forall i | 0 <= i < |s| :: (s + [e])[i] == s[i];
  }

  lemma OneTooMany(c: Config, nonces: seq<Entry>, e: Entry, x: Entry, now: real)
    requires DistinctNonces(nonces + [e]) && CrowdedOut(c, nonces, x)
    requires Live(nonces + [e], now, c.window) == nonces + [e]
    ensures CrowdedOut(c, Kept(nonces + [e], now, c.window, c.nonceLimit), x)
  {
    hide Live, Kept;
    var all, kept := nonces + [e], Kept(nonces + [e], now, c.window, c.nonceLimit);
    KeptFacts(all, now, c.window, c.nonceLimit);
    if e in kept && e.ts < x.ts {
      forall d | d in all ensures d in kept {
        assert d == e || d.ts > e.ts;
      }
      DistinctCount(kept);
      DistinctCount(all);
      CardinalityMonotone(Members(all), Members(kept));
    }
  }

  lemma AcceptanceCrowds(c: Config, s: State, step: Step)
    requires Crowded(c, s) && step.Check? && s.clock <= step.saveTime && Next(c, s, step).accepted != s.accepted
    ensures Crowded(c, Next(c, s, step))
  {
    NextShape(c, s, step);
    hide Next, Live, Kept, Holds;
    var after := Next(c, s, step);
    var e, now := after.accepted[|s.accepted|], step.saveTime;
    var all := s.nonces + [e];
    DistinctAdded(s.nonces, e);
    KeptFacts(all, now, c.window, c.nonceLimit);
    KeptAtMost(all, now, c.window, c.nonceLimit);
    forall x | x in after.accepted && x !in after.nonces && now - x.ts <= 4.0 * c.window as real
      ensures CrowdedOut(c, after.nonces, x)
    {
      if x in all {
        assert x in Live(all, now, c.window);
      } else {
        assert x in s.accepted && x !in s.nonces;
        StaysCrowded(c, s.nonces, e, x, now);
      }
    }
  }

  lemma KeptAtMost(s: seq<Entry>, now: real, window: nat, limit: nat)
    ensures |Kept(s, now, window, limit)| <= limit
    ensures |Live(s, now, window)| <= limit ==> Kept(s, now, window, limit) == Live(s, now, window)
  {
    SortedPermutes(Live(s, now, window), Newer);
    hide Live, Sorted;
  }

  lemma NextCrowded(c: Config, s: State, step: Step)
    requires Crowded(c, s) && (step.Check? ==> s.clock <= step.saveTime)
    ensures Crowded(c, Next(c, s, step))
  {
    NextShape(c, s, step);
    hide Next, Kept, Reloaded;
    if Next(c, s, step).accepted != s.accepted {
      AcceptanceCrowds(c, s, step);
    } else if step.Restart? {
      ReloadedFacts(s.nonces);
    }
  }

  lemma ReloadedFacts(nonces: seq<Entry>)
    requires DistinctNonces(nonces)
    ensures DistinctNonces(Reloaded(nonces)) && |Reloaded(nonces)| == |nonces|
    ensures forall e :: e in Reloaded(nonces) <==> e in nonces
  {
    SortedPermutes(nonces, KeyAtMost);
    PermutedDistinct(nonces, Reloaded(nonces));
  }

  lemma {:induction false} RunCrowded(c: Config, start: real, steps: seq<Step>)
    requires Monotone(start, steps)
    ensures Crowded(c, Run(c, start, steps)) && Run(c, start, steps).clock == LastTime(start, steps)
  {
    hide Next, Crowded;
    if steps == [] {
      EmptyCrowded(c, start);
    } else {
      RunCrowded(c, start, steps[..|steps| - 1]);
      var s, step := Run(c, start, steps[..|steps| - 1]), steps[|steps| - 1];
      NextCrowded(c, s, step);
      NextShape(c, s, step);
    }
  }

  lemma EmptyCrowded(c: Config, start: real)
    ensures Crowded(c, State([], [], start))
  {
  }

  /** The accepted envelopes with a newer time, and the others with a time at least as new. */
  ghost function NewerThan(history: seq<Entry>, ts: real): set<Entry> {
    set x | x in history && x.ts > ts
  }

  ghost function OthersNotOlder(history: seq<Entry>, e: Entry): set<Entry> {
    set x | x in history && x != e && x.ts >= e.ts
  }

  lemma CrowdedStore(c: Config, s: State, e: Entry)
    requires Crowded(c, s) && e in s.accepted && s.clock - e.ts <= 4.0 * c.window as real
    ensures |NewerThan(s.accepted, e.ts)| >= c.nonceLimit ==> e !in s.nonces
    ensures |OthersNotOlder(s.accepted, e)| < c.nonceLimit ==> e in s.nonces
  {
    var newer, others := NewerThan(s.accepted, e.ts), OthersNotOlder(s.accepted, e);
    DistinctCount(s.nonces);
    if e in s.nonces {
      forall x | x in newer ensures x in s.nonces {
        assert x !in s.nonces ==> CrowdedOut(c, s.nonces, x);
      }
      CardinalityMonotone(newer + {e}, Members(s.nonces));
    } else {
      assert CrowdedOut(c, s.nonces, e);
      CardinalityMonotone(Members(s.nonces), others);
    }
  }

  /** Presented again while it is still fresh, an accepted envelope is accepted again when `nonceLimit`
      accepted envelopes have a newer time, and refused when fewer others have a time at least as new:
      exactly so when no other has its time, whatever restarts and saves there were. */
  lemma ReplayAcceptedIff(c: Config, start: real, steps: seq<Step>, e: Entry,
                          message: Json, expected: Option<string>, now: real, saveTime: real)
    requires Monotone(start, steps) && LastTime(start, steps) <= now
    requires e in Run(c, start, steps).accepted
    requires forall x | x in Run(c, start, steps).accepted && x.nonce == e.nonce :: x == e
    requires var again := Screen(c.platform, c.meshKey, c.window, message, expected, now);
             again.Fresh? && again.nonce == e.nonce && again.ts == e.ts
    ensures var history := Run(c, start, steps).accepted;
            var again := Verify(c, Run(c, start, steps).nonces, message, expected, now, saveTime).1;
            && (|NewerThan(history, e.ts)| >= c.nonceLimit ==> again.Verified?)
            && (|OthersNotOlder(history, e)| < c.nonceLimit ==> !again.Verified?)
            && ((forall x | x in history && x.ts == e.ts :: x == e) ==>
                  (again.Verified? <==> |NewerThan(history, e.ts)| >= c.nonceLimit))
  {
    FreshIsYoung(c, message, expected, now);
    RunCrowded(c, start, steps);
    hide Run, Screen, Kept;
    var s := Run(c, start, steps);
    CrowdedStore(c, s, e);
    assert Holds(s.nonces, e.nonce) <==> e in s.nonces;
    if forall x | x in s.accepted && x.ts == e.ts :: x == e {
      assert OthersNotOlder(s.accepted, e) == NewerThan(s.accepted, e.ts);
    }
  }
}
