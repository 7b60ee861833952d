/** Message trust: the nonce store, `verify`, and what no run of `verify` calls can do. */
module Trust {
  import opened Text
  import opened Json
  import opened Results
  import opened Signing

  /** One remembered nonce; the store is a dictionary held in insertion order. */
  datatype Entry = Entry(nonce: string, ts: real)

  datatype Config = Config(platform: Platform, meshKey: string, window: nat, nonceLimit: nat)

  datatype Verdict = Verified(nodeId: string) | Rejected(reason: Reason) | Failed

  // ---- sorting, as `sorted` does it ----

  function Insert(e: Entry, s: seq<Entry>, before: (Entry, Entry) -> bool): seq<Entry> {
    if s == [] || before(e, s[0]) then [e] + s else [s[0]] + Insert(e, s[1..], before)
  }

  /** A stable sort by `before`. */
  function Sorted(s: seq<Entry>, before: (Entry, Entry) -> bool): seq<Entry> {
    if s == [] then [] else Insert(s[0], Sorted(s[1..], before), before)
  }

  predicate Newer(a: Entry, b: Entry) {
    a.ts >= b.ts
  }

  predicate KeyAtMost(a: Entry, b: Entry) {
    AtMost(a.nonce, b.nonce)
  }

  lemma InsertPermutes(e: Entry, s: seq<Entry>, before: (Entry, Entry) -> bool)
    ensures multiset(Insert(e, s, before)) == multiset{e} + multiset(s)
  {
    if s != [] && !before(e, s[0]) {
      InsertPermutes(e, s[1..], before);
      assert s == [s[0]] + s[1..];
    }
  }

  lemma SortedPermutes(s: seq<Entry>, before: (Entry, Entry) -> bool)
    ensures multiset(Sorted(s, before)) == multiset(s)
    ensures |Sorted(s, before)| == |s|
    ensures forall e :: e in Sorted(s, before) <==> e in s
  {
    if s != [] {
      SortedPermutes(s[1..], before);
      InsertPermutes(s[0], Sorted(s[1..], before), before);
      assert s == [s[0]] + s[1..];
    }
    SamePermutation(Sorted(s, before), s);
  }

  lemma SamePermutation(a: seq<Entry>, b: seq<Entry>)
    requires multiset(a) == multiset(b)
    ensures |a| == |b|
    ensures forall e :: e in a <==> e in b
  {
    assert |a| == |multiset(a)| && |b| == |multiset(b)|;
    forall e ensures e in a <==> e in b {
      assert e in a <==> e in multiset(a);
      assert e in b <==> e in multiset(b);
    }
  }

  predicate NewestFirst(s: seq<Entry>) {
    forall i, j | 0 <= i < j < |s| :: s[i].ts >= s[j].ts
  }

  lemma {:induction false} InsertKeepsNewestFirst(e: Entry, s: seq<Entry>)
    requires NewestFirst(s)
    ensures NewestFirst(Insert(e, s, Newer))
  {
    if s != [] && !Newer(e, s[0]) {
      InsertKeepsNewestFirst(e, s[1..]);
      var r := Insert(e, s[1..], Newer);
      InsertPermutes(e, s[1..], Newer);
      forall x | x in r ensures s[0].ts >= x.ts {
        assert x in multiset(r);
      }
    }
  }

  lemma SortedNewestFirst(s: seq<Entry>)
    ensures NewestFirst(Sorted(s, Newer))
  {
    if s != [] {
      SortedNewestFirst(s[1..]);
      InsertKeepsNewestFirst(s[0], Sorted(s[1..], Newer));
    }
  }

  // ---- the nonce store ----

  predicate Holds(nonces: seq<Entry>, nonce: string) {
    exists e | e in nonces :: e.nonce == nonce
  }

  predicate DistinctNonces(s: seq<Entry>) {
    forall i, j | 0 <= i < j < |s| :: s[i].nonce != s[j].nonce
  }

  /** The entries at most four windows old. */
  function Live(s: seq<Entry>, now: real, window: nat): (r: seq<Entry>)
    ensures forall e :: e in r <==> e in s && now - e.ts <= window as real * 4.0
    ensures DistinctNonces(s) ==> DistinctNonces(r)
  {
    if s == [] then []
    else
      var rest := Live(s[1..], now, window);
      assert s == [s[0]] + s[1..];
      if now - s[0].ts <= window as real * 4.0 then [s[0]] + rest else rest
  }

  /** `_save_nonces`: drop the old, then keep the newest `limit`. */
  function Kept(s: seq<Entry>, now: real, window: nat, limit: nat): seq<Entry> {
    var live := Live(s, now, window);
    if |live| > limit then
      (SortedPermutes(live, Newer);
       Sorted(live, Newer)[..limit])
    else live
  }

  /** `_load_nonces`: the file holds the dictionary in key order. */
  function Reloaded(s: seq<Entry>): seq<Entry> {
    Sorted(s, KeyAtMost)
  }

  /** The entries of one time, in their order. */
  function AtTime(s: seq<Entry>, ts: real): seq<Entry> {
    if s == [] then [] else (if s[0].ts == ts then [s[0]] else []) + AtTime(s[1..], ts)
  }

  lemma AtTimeFirst(e: Entry, s: seq<Entry>, ts: real)
    ensures AtTime([e] + s, ts) == (if e.ts == ts then [e] else []) + AtTime(s, ts)
  {
    assert ([e] + s)[1..] == s;
  }

  lemma {:induction false} InsertStable(e: Entry, s: seq<Entry>, ts: real)
    requires NewestFirst(s)
    ensures AtTime(Insert(e, s, Newer), ts) == (if e.ts == ts then [e] else []) + AtTime(s, ts)
  {
    if s != [] && !Newer(e, s[0]) {
      var rest := Insert(e, s[1..], Newer);
      InsertStable(e, s[1..], ts);
      AtTimeFirst(s[0], s[1..], ts);
      AtTimeFirst(s[0], rest, ts);
      hide AtTime;
      assert s == [s[0]] + s[1..];
    } else {
      AtTimeFirst(e, s, ts);
    }
  }

  lemma {:induction false} SortedStable(s: seq<Entry>, ts: real)
    ensures AtTime(Sorted(s, Newer), ts) == AtTime(s, ts)
  {
    if s != [] {
      SortedStable(s[1..], ts);
      SortedNewestFirst(s[1..]);
      InsertStable(s[0], Sorted(s[1..], Newer), ts);
    }
  }

  lemma {:induction false} LiveInOrder(s: seq<Entry>, now: real, window: nat, ts: real)
    ensures AtTime(Live(s, now, window), ts) == if now - ts <= window as real * 4.0 then AtTime(s, ts) else []
  {
    if s != [] {
      LiveInOrder(s[1..], now, window, ts);
      var rest := Live(s[1..], now, window);
      assert ([s[0]] + rest)[1..] == rest;
    }
  }

  /** A save keeps every entry at most four windows old, or the first `limit` of them from the newest to the
      oldest, in which entries of one time stay in their order. */
  lemma KeptIsPrefix(s: seq<Entry>, now: real, window: nat, limit: nat)
    ensures exists order ::
              && NewestFirst(order) && |order| == |Live(s, now, window)|
              && (forall ts :: AtTime(order, ts) == if now - ts <= window as real * 4.0 then AtTime(s, ts) else [])
              && (|order| > limit ==> Kept(s, now, window, limit) == order[..limit])
              && (|order| <= limit ==> multiset(Kept(s, now, window, limit)) == multiset(order))
  {
    var live := Live(s, now, window);
    var order := Sorted(live, Newer);
    SortedNewestFirst(live);
    SortedPermutes(live, Newer);
    forall ts ensures AtTime(order, ts) == if now - ts <= window as real * 4.0 then AtTime(s, ts) else [] {
      SortedStable(live, ts);
      LiveInOrder(s, now, window, ts);
    }
  }

  ghost predicate ByNonce(s: seq<Entry>) {
    forall i, j | 0 <= i < j < |s| :: AtMost(s[i].nonce, s[j].nonce)
  }

  lemma {:induction false} InsertByNonce(e: Entry, s: seq<Entry>)
    requires ByNonce(s)
    ensures ByNonce(Insert(e, s, KeyAtMost))
  {
    if s != [] && !KeyAtMost(e, s[0]) {
      InsertByNonce(e, s[1..]);
      AtMostTotal(e.nonce, s[0].nonce);
      InsertPermutes(e, s[1..], KeyAtMost);
      var rest := Insert(e, s[1..], KeyAtMost);
      forall j | 0 <= j < |rest| ensures AtMost(s[0].nonce, rest[j].nonce) {
        assert rest[j] in multiset(rest);
        if rest[j] != e {
          assert rest[j] in s[1..];
        }
      }
    } else if s != [] {
      forall j | 0 <= j < |s| ensures AtMost(e.nonce, s[j].nonce) {
        if j > 0 {
          AtMostTransitive(e.nonce, s[0].nonce, s[j].nonce);
        }
      }
    }
  }

  /** What is read back is the same nonces, in the order of their texts. */
  lemma {:induction false} ReloadedOrder(s: seq<Entry>)
    ensures ByNonce(Reloaded(s)) && multiset(Reloaded(s)) == multiset(s)
  {
    if s != [] {
      ReloadedOrder(s[1..]);
      InsertByNonce(s[0], Reloaded(s[1..]));
    }
    SortedPermutes(s, KeyAtMost);
  }

  lemma PermutedDistinct(s: seq<Entry>, r: seq<Entry>)
    requires multiset(r) == multiset(s) && DistinctNonces(s)
    ensures DistinctNonces(r)
  {
    forall i, j | 0 <= i < j < |r| ensures r[i].nonce != r[j].nonce {
      if r[i].nonce == r[j].nonce {
        assert r[i] in multiset(s) && r[j] in multiset(s);
        assert r[i] == r[j];
        assert r == r[..i] + [r[i]] + r[i + 1..j] + [r[j]] + r[j + 1..];
        assert multiset(s)[r[i]] >= 2;
        AtMostOnce(s, r[i]);
      }
    }
  }

  lemma AtMostOnce(s: seq<Entry>, e: Entry)
    requires DistinctNonces(s)
    ensures multiset(s)[e] <= 1
  {
    if s != [] {
      AtMostOnce(s[1..], e);
      assert s == [s[0]] + s[1..];
      if e == s[0] {
        assert e !in s[1..];
      }
    }
  }

  lemma KeptFacts(s: seq<Entry>, now: real, window: nat, limit: nat)
    requires DistinctNonces(s)
    ensures var r := Kept(s, now, window, limit);
            && DistinctNonces(r) && |r| <= |Live(s, now, window)|
            && (forall e | e in r :: e in Live(s, now, window))
            && (|Live(s, now, window)| > limit ==>
                  |r| == limit && forall e, d | e in r && d in Live(s, now, window) && d !in r :: e.ts >= d.ts)
  {
    var live := Live(s, now, window);
    if |live| > limit {
      SortedPermutes(live, Newer);
      NewestPrefix(live, limit);
    }
  }

  /** The first `limit` entries of the sorted store are at least as new as the rest. */
  lemma NewestPrefix(live: seq<Entry>, limit: nat)
    requires DistinctNonces(live) && limit <= |live| == |Sorted(live, Newer)|
    ensures var r := Sorted(live, Newer)[..limit];
            && DistinctNonces(r)
            && (forall e | e in r :: e in live)
            && forall e, d | e in r && d in live && d !in r :: e.ts >= d.ts
  {
    hide Sorted;
    var all := Sorted(live, Newer);
    SortedPermutes(live, Newer);
    SortedNewestFirst(live);
    PermutedDistinct(live, all);
    forall e, d | e in all[..limit] && d in live && d !in all[..limit] ensures e.ts >= d.ts {
      assert d in all;
      var i :| 0 <= i < limit && all[i] == e;
      assert all == all[..limit] + all[limit..];
      var j :| limit <= j < |all| && all[j] == d;
    }
  }

  ghost function Members(s: seq<Entry>): set<Entry> {
    set e | e in s
  }

  lemma DistinctCount(s: seq<Entry>)
    requires DistinctNonces(s)
    ensures |Members(s)| == |s|
  {
    if s != [] {
      DistinctCount(s[1..]);
      assert Members(s) == Members(s[1..]) + {s[0]};
    }
  }

  /** A save drops a live entry exactly when more than `limit` entries are live. */
  lemma EvictsExactlyWhenOverfull(s: seq<Entry>, now: real, window: nat, limit: nat)
    requires DistinctNonces(s)
    ensures (forall e | e in Live(s, now, window) :: e in Kept(s, now, window, limit))
            <==> |Live(s, now, window)| <= limit
  {
    KeptFacts(s, now, window, limit);
    var live, kept := Live(s, now, window), Kept(s, now, window, limit);
    if |live| > limit && forall e | e in live :: e in kept {
      DistinctCount(live);
      DistinctCount(kept);
      assert Members(live) <= Members(kept);
      CardinalityMonotone(Members(live), Members(kept));
    }
  }

  lemma CardinalityMonotone<T>(a: set<T>, b: set<T>)
    requires a <= b
    ensures |a| <= |b|
  {
    assert b == a + (b - a);
  }

  // ---- verify ----

  /** `verify`: `now` is the time of the freshness check, `saveTime` that of the save. */
  function Verify(c: Config, nonces: seq<Entry>, message: Json, expected: Option<string>, now: real, saveTime: real)
    : (r: (seq<Entry>, Verdict))
  {
    match Screen(c.platform, c.meshKey, c.window, message, expected, now)
    case Refused(reason) => (nonces, Rejected(reason))
    case Raised => (nonces, Failed)
    case Fresh(nodeId, nonce, ts) =>
      if Holds(nonces, nonce) then (nonces, Rejected(ReplayedNonce))
      else (Kept(nonces + [Entry(nonce, ts)], saveTime, c.window, c.nonceLimit), Verified(nodeId))
  }

  /** A message is accepted exactly when it is genuine and its nonce is not retained.  Then its nonce and
      time are remembered, subject to the save; otherwise nothing is. */
  lemma AcceptedIff(c: Config, nonces: seq<Entry>, message: Json, expected: Option<string>, now: real, saveTime: real)
    ensures var (after, verdict) := Verify(c, nonces, message, expected, now, saveTime);
            && (forall n, nonce, ts | Genuine(c.platform, c.meshKey, c.window, message, expected, now, n, nonce, ts) ::
                  if exists e | e in nonces :: e.nonce == nonce then verdict == Rejected(ReplayedNonce)
                  else verdict == Verified(n) && after == Kept(nonces + [Entry(nonce, ts)], saveTime, c.window, c.nonceLimit))
            && (verdict.Verified? ==>
                  exists nonce, ts :: Genuine(c.platform, c.meshKey, c.window, message, expected, now, verdict.nodeId, nonce, ts)
                                      && forall e | e in nonces :: e.nonce != nonce)
            && (!verdict.Verified? ==> after == nonces)
  {
    hide Screen, Genuine, Kept;
    forall n, nonce, ts
      ensures Genuine(c.platform, c.meshKey, c.window, message, expected, now, n, nonce, ts) <==>
              Screen(c.platform, c.meshKey, c.window, message, expected, now) == Fresh(n, nonce, ts)
    {
      FreshIff(c.platform, c.meshKey, c.window, message, expected, now, n, nonce, ts);
    }
  }

  class TrustManager {
    const config: Config
    var nonces: seq<Entry>
    /** The dictionary in the nonce file, `None` while there is no readable file. */
    var stored: Option<seq<Entry>>

    ghost predicate Valid()
      reads this
    {
      && DistinctNonces(nonces)
      // the file holds the dictionary in memory
      && (if stored.Some? then multiset(stored.value) == multiset(nonces) else nonces == [])
    }

    /** Starting up: read the nonce file if there is one. */
    constructor (config: Config, file: Option<seq<Entry>>)
      requires file.Some? ==> DistinctNonces(file.value)
      ensures Valid() && this.config == config && stored == file
      ensures nonces == if file.Some? then Reloaded(file.value) else []
    {
      this.config, stored := config, file;
      nonces := if file.Some? then Reloaded(file.value) else [];
      new;
      if file.Some? {
        SortedPermutes(file.value, KeyAtMost);
        PermutedDistinct(file.value, nonces);
      }
    }

    method SaveNonces(now: real)
      requires DistinctNonces(nonces)
      modifies this
      ensures Valid()
      ensures nonces == Kept(old(nonces), now, config.window, config.nonceLimit)
      ensures stored == Some(nonces)
    {
      KeptFacts(nonces, now, config.window, config.nonceLimit);
      nonces := Live(nonces, now, config.window);
      if |nonces| > config.nonceLimit {
        var all := Sorted(nonces, Newer);
        SortedPermutes(nonces, Newer);
        nonces := all[..config.nonceLimit];
      }
      stored := Some(nonces);
    }

    method RememberNonce(nonce: string, ts: real, now: real) returns (remembered: bool)
      requires Valid()
      modifies this
      ensures Valid()
      ensures remembered == !Holds(old(nonces), nonce)
      ensures nonces == if remembered then Kept(old(nonces) + [Entry(nonce, ts)], now, config.window, config.nonceLimit) else old(nonces)
      ensures stored == if remembered then Some(nonces) else old(stored)
    {
      if Holds(nonces, nonce) {
        return false;
      }
      nonces := nonces + [Entry(nonce, ts)];
      SaveNonces(now);
      remembered := true;
    }

    method VerifyMessage(message: Json, expected: Option<string>, now: real, saveTime: real) returns (verdict: Verdict)
      requires Valid()
      modifies this
      ensures Valid()
      ensures (nonces, verdict) == Verify(config, old(nonces), message, expected, now, saveTime)
      ensures stored == if verdict.Verified? then Some(nonces) else old(stored)
    {
      match Screen(config.platform, config.meshKey, config.window, message, expected, now) {
        case Refused(reason) => verdict := Rejected(reason);
        case Raised => verdict := Failed;
        case Fresh(nodeId, nonce, ts) =>
          var remembered := RememberNonce(nonce, ts, saveTime);
          verdict := if remembered then Verified(nodeId) else Rejected(ReplayedNonce);
      }
    }
  }

  /** A signed message is accepted by any manager with the same key exactly when its time is
      within the window and its nonce is not retained. */
  lemma SignedIsAccepted(c: Config, nonces: seq<Entry>, nodeId: string, op: string, payload: Json,
                         nonce: Option<string>, ts: Option<Json>, freshNonce: string, clock: Json,
                         expected: Option<string>, now: real, saveTime: real)
    requires nodeId != "" && freshNonce != "" && ExpectedNode(nodeId, expected)
    requires Sign(c.platform, c.meshKey, nodeId, op, payload, nonce, ts, freshNonce, clock).Ok?
    ensures var message := Sign(c.platform, c.meshKey, nodeId, op, payload, nonce, ts, freshNonce, clock).value;
            var seconds := TimestampSeconds(c.platform, message.fields["ts"]);
            var verdict := Verify(c, nonces, message, expected, now, saveTime).1;
            && (verdict == Verified(nodeId) <==>
                  && seconds.Some? && Abs(now - seconds.value) <= c.window as real
                  && !Holds(nonces, message.fields["nonce"].s))
            && (verdict.Verified? ==> verdict.nodeId == nodeId)
  {
    SignedPassesScreen(c.platform, c.meshKey, nodeId, op, payload, nonce, ts, freshNonce, clock, c.window, expected, now);
  }
}
