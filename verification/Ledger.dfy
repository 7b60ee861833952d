/** What the ledger says: the messages and tasks obtained by reading it from the start. */
module Ledger {
  import opened Json
  import opened Results
  import opened Tasks
  import opened Vault

  function TextOf(v: Json): string {
    match v
    case Str(s) => s
    case _ => ""
  }

  /** The event a ledger row records. */
  function EventOf(row: Json): Event {
    if !row.Obj? then Event("", "", "", "", map[], "")
    else
      var f := row.fields;
      var payload := match Get(f, "payload") case Obj(fields) => fields case _ => map[];
      Event(TextOf(Get(f, "id")), TextOf(Get(f, "ts")), TextOf(Get(f, "node")), TextOf(Get(f, "op")), payload, TextOf(Get(f, "sig")))
  }

  lemma EventOfRow(e: Event)
    ensures EventOf(RowOf(e)) == e
  {
  }

  /** Messages and tasks, the tasks without the time they were stored. */
  datatype View = View(messages: seq<Json>, tasks: Index)

  function ViewOf(s: State): View {
    View(s.messages, UnstampedIndex(s.tasks))
  }

  /** The task an event stores, if it is a valid task event. */
  function StoredTask(e: Event): Option<Task> {
    if !IsMessage(e) && IsTask(e) then
      match Normalized(TaskPart(e.payload), "", "")
      case None => None
      case Some(t) => Some(Unstamped(t))
    else None
  }

  function ApplyToView(v: View, e: Event): View {
    if IsMessage(e) then v.(messages := Last(v.messages + [MessageOf(e)], MESSAGE_LIMIT))
    else if StoredTask(e).Some? then v.(tasks := Upserted(v.tasks, StoredTask(e).value))
    else v
  }

  function Fold(rows: seq<Json>): View {
    if rows == [] then View([], EMPTY_INDEX)
    else ApplyToView(Fold(rows[..|rows| - 1]), EventOf(rows[|rows| - 1]))
  }

  lemma FoldAppend(rows: seq<Json>, e: Event)
    ensures Fold(rows + [RowOf(e)]) == ApplyToView(Fold(rows), e)
  {
    EventOfRow(e);
    assert (rows + [RowOf(e)])[..|rows|] == rows;
  }

  // ---- closed forms ----

  /** All messages the ledger records, oldest first. */
  function MessagesIn(rows: seq<Json>): seq<Json> {
    if rows == [] then []
    else
      var e := EventOf(rows[|rows| - 1]);
      MessagesIn(rows[..|rows| - 1]) + if IsMessage(e) then [MessageOf(e)] else []
  }

  /** The message log is exactly the last 200 messages of the ledger. */
  lemma {:induction false} MessagesAreLast200(rows: seq<Json>)
    ensures Fold(rows).messages == Last(MessagesIn(rows), MESSAGE_LIMIT)
  {
    if rows != [] {
      var front := rows[..|rows| - 1];
      var e := EventOf(rows[|rows| - 1]);
      MessagesAreLast200(front);
      LastOfLast(MessagesIn(front), if IsMessage(e) then [MessageOf(e)] else [], MESSAGE_LIMIT);
    }
  }

  /** Trimming before an append does not show after it. */
  lemma LastOfLast<T>(s: seq<T>, more: seq<T>, n: nat)
    ensures Last(Last(s, n) + more, n) == Last(s + more, n)
  {
  }

  /** The task each row stores. */
  function Stores(rows: seq<Json>): (r: seq<Option<Task>>)
    ensures |r| == |rows|
  {
    seq(|rows|, i requires 0 <= i < |rows| => StoredTask(EventOf(rows[i])))
  }

  predicate StoresUnder(store: Option<Task>, id: string) {
    store.Some? && store.value.id == id
  }

  /** Where a task with this id is last stored, -1 if it never is. */
  function LatestIndex(stores: seq<Option<Task>>, id: string): (i: int)
    ensures -1 <= i < |stores|
    ensures i >= 0 ==> StoresUnder(stores[i], id)
    ensures forall j | i < j < |stores| :: !StoresUnder(stores[j], id)
  {
    if stores == [] then -1
    else if StoresUnder(stores[|stores| - 1], id) then |stores| - 1
    else LatestIndex(stores[..|stores| - 1], id)
  }

  ghost predicate IsLatest(stores: seq<Option<Task>>, t: Task) {
    LatestIndex(stores, t.id) >= 0 && stores[LatestIndex(stores, t.id)] == Some(t)
  }

  /** Every task of the bucket is the latest one stored under its id, in the order of storing. */
  ghost predicate LatestInOrder(stores: seq<Option<Task>>, s: seq<Task>) {
    && (forall t | t in s :: IsLatest(stores, t))
    && (forall p, q | 0 <= p < q < |s| :: LatestIndex(stores, s[p].id) < LatestIndex(stores, s[q].id))
  }

  lemma {:induction false} WithoutAscending(s: seq<Task>, id: string, rank: string -> int)
    requires forall p, q | 0 <= p < q < |s| :: rank(s[p].id) < rank(s[q].id)
    ensures var r := Without(s, id); forall p, q | 0 <= p < q < |r| :: rank(r[p].id) < rank(r[q].id)
  {
    if s != [] {
      var rest := Without(s[1..], id);
      WithoutAscending(s[1..], id, rank);
      WithoutFacts(s[1..], id);
      forall q | 0 <= q < |rest| ensures rank(s[0].id) < rank(rest[q].id) {
        assert rest[q] in s[1..];
      }
    }
  }

  lemma WithoutInOrder(stores: seq<Option<Task>>, s: seq<Task>, id: string)
    requires LatestInOrder(stores, s)
    ensures LatestInOrder(stores, Without(s, id))
  {
    var rank := i => LatestIndex(stores, i);
    assert forall p, q | 0 <= p < q < |s| :: rank(s[p].id) < rank(s[q].id);
    WithoutAscending(s, id, rank);
    WithoutFacts(s, id);
    var r := Without(s, id);
    forall p, q | 0 <= p < q < |r| ensures LatestIndex(stores, r[p].id) < LatestIndex(stores, r[q].id) {
      assert rank(r[p].id) < rank(r[q].id);
    }
  }

  /** A later row does not matter to the ids it does not store. */
  lemma LaterRow(stores: seq<Option<Task>>, store: Option<Task>, s: seq<Task>)
    requires LatestInOrder(stores, s)
    requires forall t | t in s :: !StoresUnder(store, t.id)
    ensures LatestInOrder(stores + [store], s)
  {
    assert (stores + [store])[..|stores|] == stores;
    forall t | t in s ensures LatestIndex(stores + [store], t.id) == LatestIndex(stores, t.id) {
    }
  }

  /** The bucket before it is trimmed. */
  lemma AllInOrder(stores: seq<Option<Task>>, x: Task, s: seq<Task>)
    requires LatestInOrder(stores, s)
    ensures LatestInOrder(stores + [Some(x)], Without(s, x.id) + [x])
  {
    var after, rest := stores + [Some(x)], Without(s, x.id);
    var all := rest + [x];
    WithoutFacts(s, x.id);
    WithoutInOrder(stores, s, x.id);
    LaterRow(stores, Some(x), rest);
    assert after[..|stores|] == stores;
    assert LatestIndex(after, x.id) == |stores|;
    forall p | 0 <= p < |rest| ensures LatestIndex(after, all[p].id) < |stores| {
      assert all[p] in rest;
      assert LatestIndex(after, all[p].id) == LatestIndex(stores, all[p].id);
    }
  }

  lemma StoredInOrder(stores: seq<Option<Task>>, t: Task, b: Bucket, s: seq<Task>)
    requires LatestInOrder(stores, s)
    ensures LatestInOrder(stores + [Some(t)], StoredIn(b, s, t))
  {
    var after, rest := stores + [Some(t)], Without(s, t.id);
    AllInOrder(stores, t, s);
    if b == t.status {
      LastInOrder(after, rest + [t]);
    } else {
      WithoutFacts(s, t.id);
      WithoutInOrder(stores, s, t.id);
      LaterRow(stores, Some(t), rest);
    }
  }

  lemma LastInOrder(stores: seq<Option<Task>>, s: seq<Task>)
    requires forall t | t in s :: IsLatest(stores, t)
    requires forall p, q | 0 <= p < q < |s| :: LatestIndex(stores, s[p].id) < LatestIndex(stores, s[q].id)
    ensures LatestInOrder(stores, Last(s, BUCKET_LIMIT))
  {
    assert forall t | t in Last(s, BUCKET_LIMIT) :: t in s;
  }

  // ---- which tasks are indexed ----

  /** Row `i` is the last one stored under its id, and its status is `b`. */
  predicate LatestAt(stores: seq<Option<Task>>, i: nat, b: Bucket) {
    && i < |stores| && stores[i].Some? && stores[i].value.status == b
    && LatestIndex(stores, stores[i].value.id) == i
  }

  /** The ids of status `b` that are last stored after row `i`. */
  ghost function NewerIds(stores: seq<Option<Task>>, i: nat, b: Bucket): set<string> {
    set k: nat | i < k < |stores| && LatestAt(stores, k, b) :: stores[k].value.id
  }

  /** At some later row, 200 other ids of status `b` were last stored after row `i`. */
  ghost predicate Crowded(stores: seq<Option<Task>>, i: nat, b: Bucket) {
    exists j | i < j <= |stores| :: |NewerIds(stores[..j], i, b)| >= 200
  }

  /** The bucket holds exactly the tasks of status `b` that are the last ones stored under their ids
      and were never crowded out, in the order of storing. */
  ghost predicate BucketSays(stores: seq<Option<Task>>, b: Bucket, s: seq<Task>) {
    && LatestInOrder(stores, s)
    && (forall t | t in s :: t.status == b)
    && forall i: nat | LatestAt(stores, i, b) :: stores[i].value in s <==> !Crowded(stores, i, b)
  }

  /** What one more row does to the ids stored after row `i`. */
  lemma NewerStep(stores: seq<Option<Task>>, store: Option<Task>, i: nat, b: Bucket)
    requires i < |stores|
    ensures forall id :: id in NewerIds(stores + [store], i, b) <==>
              || (id in NewerIds(stores, i, b) && !StoresUnder(store, id))
              || (store.Some? && store.value.status == b && id == store.value.id)
  {
    var n, after := |stores|, stores + [store];
    assert after[..n] == stores;
    forall k: nat | k < n && stores[k].Some?
      ensures LatestAt(after, k, b) <==> LatestAt(stores, k, b) && !StoresUnder(store, stores[k].value.id)
    {
    }
    forall id | id in NewerIds(after, i, b)
      ensures (id in NewerIds(stores, i, b) && !StoresUnder(store, id)) || (store.Some? && store.value.status == b && id == store.value.id)
    {
      var k: nat :| i < k < |after| && LatestAt(after, k, b) && after[k].value.id == id;
      if k < n {
        assert LatestAt(stores, k, b);
      }
    }
    forall id | id in NewerIds(stores, i, b) && !StoresUnder(store, id) ensures id in NewerIds(after, i, b) {
      var k: nat :| i < k < n && LatestAt(stores, k, b) && stores[k].value.id == id;
      assert LatestAt(after, k, b) && after[k].value.id == id;
    }
    if store.Some? && store.value.status == b {
      assert LatestAt(after, n, b) && after[n].value.id == store.value.id;
    }
  }

  lemma CrowdedStep(stores: seq<Option<Task>>, store: Option<Task>, i: nat, b: Bucket)
    requires i < |stores|
    ensures Crowded(stores + [store], i, b) <==> Crowded(stores, i, b) || |NewerIds(stores + [store], i, b)| >= 200
  {
    hide NewerIds;
    var after := stores + [store];
    assert after[..|after|] == after;
    assert forall j | i < j <= |stores| :: after[..j] == stores[..j];
    if Crowded(stores, i, b) {
      var j :| i < j <= |stores| && |NewerIds(stores[..j], i, b)| >= 200;
      assert |NewerIds(after[..j], i, b)| >= 200;
    }
  }

  lemma NewerThanNewer(stores: seq<Option<Task>>, i: nat, k: nat, b: Bucket)
    requires i <= k
    ensures NewerIds(stores, k, b) <= NewerIds(stores, i, b)
  {
  }

  /** What a newer row crowds out was crowded out before. */
  lemma NewerNotCrowded(stores: seq<Option<Task>>, i: nat, k: nat, b: Bucket)
    requires i <= k < |stores| && !Crowded(stores, i, b)
    ensures !Crowded(stores, k, b)
  {
    hide NewerIds;
    if j :| k < j <= |stores| && |NewerIds(stores[..j], k, b)| >= 200 {
      NewerThanNewer(stores[..j], i, k, b);
      assert |NewerIds(stores[..j], k, b)| <= |NewerIds(stores[..j], i, b)| by {
        SubsetCount(NewerIds(stores[..j], k, b), NewerIds(stores[..j], i, b));
      }
    }
  }

  lemma SubsetCount<T>(a: set<T>, b: set<T>)
    requires a <= b
    ensures |a| <= |b|
  {
    assert b == a + (b - a);
  }

  ghost function IdsOf(s: seq<Task>): set<string> {
    set t | t in s :: t.id
  }

  lemma {:induction false} DistinctIdCount(s: seq<Task>)
    requires DistinctIds(s)
    ensures |IdsOf(s)| == |s|
  {
    if s != [] {
      var front, last := s[..|s| - 1], s[|s| - 1];
      assert s == front + [last];
      DistinctIdCount(front);
      assert IdsOf(s) == IdsOf(front) + {last.id};
    }
  }

  lemma TailIdNewer(stores: seq<Option<Task>>, b: Bucket, s: seq<Task>, i: nat, p: nat, id: string)
    requires LatestInOrder(stores, s) && forall t | t in s :: t.status == b
    requires p < |s| && LatestAt(stores, i, b) && s[p] == stores[i].value && id in IdsOf(s[p + 1..])
    ensures id in NewerIds(stores, i, b)
  {
    var t :| t in s[p + 1..] && t.id == id;
    var q :| p < q < |s| && s[q] == t;
    var k: nat := LatestIndex(stores, id);
    assert IsLatest(stores, s[q]) && LatestAt(stores, k, b);
  }

  lemma NewerIdInTail(stores: seq<Option<Task>>, b: Bucket, s: seq<Task>, i: nat, p: nat, id: string)
    requires LatestInOrder(stores, s) && p < |s| && LatestAt(stores, i, b) && s[p] == stores[i].value
    requires forall k: nat | i < k < |stores| && LatestAt(stores, k, b) :: stores[k].value in s
    requires id in NewerIds(stores, i, b)
    ensures id in IdsOf(s[p + 1..])
  {
    var k: nat :| i < k < |stores| && LatestAt(stores, k, b) && stores[k].value.id == id;
    var q :| 0 <= q < |s| && s[q] == stores[k].value;
    assert q > p;
    assert s[q] == s[p + 1..][q - p - 1];
  }

  /** In a bucket that misses none of the newer ids, what comes after row `i` are those ids. */
  lemma TailIds(stores: seq<Option<Task>>, b: Bucket, s: seq<Task>, i: nat, p: nat)
    requires LatestInOrder(stores, s) && forall t | t in s :: t.status == b
    requires p < |s| && LatestAt(stores, i, b) && s[p] == stores[i].value
    requires forall k: nat | i < k < |stores| && LatestAt(stores, k, b) :: stores[k].value in s
    ensures |NewerIds(stores, i, b)| == |s| - 1 - p
  {
    var tail := s[p + 1..];
    assert DistinctIds(tail);
    DistinctIdCount(tail);
    forall id | id in IdsOf(tail) ensures id in NewerIds(stores, i, b) {
      TailIdNewer(stores, b, s, i, p, id);
    }
    forall id | id in NewerIds(stores, i, b) ensures id in IdsOf(tail) {
      NewerIdInTail(stores, b, s, i, p, id);
    }
    assert NewerIds(stores, i, b) == IdsOf(tail);
  }

  lemma InLast(s: seq<Task>, p: nat)
    requires DistinctIds(s) && p < |s|
    ensures s[p] in Last(s, BUCKET_LIMIT) <==> |s| - 1 - p < 200
  {
    var r := Last(s, BUCKET_LIMIT);
    if |s| - 1 - p < 200 {
      assert |s| > 200 ==> r[p - (|s| - 200)] == s[p];
    } else {
      forall q | 0 <= q < |r| ensures r[q].id != s[p].id {
        assert r[q] == s[|s| - 200 + q];
      }
    }
  }

  /** The task of an older row, after a row with another id. */
  lemma OlderRow(stores: seq<Option<Task>>, store: Option<Task>, b: Bucket, s: seq<Task>, i: nat)
    requires BucketSays(stores, b, s) && i < |stores| && LatestAt(stores + [store], i, b)
    ensures stores[i].value in (if store.Some? then StoredIn(b, s, store.value) else s) <==> !Crowded(stores + [store], i, b)
  {
    var after, t := stores + [store], stores[i].value;
    assert after[..|stores|] == stores;
    assert LatestAt(stores, i, b) && !StoresUnder(store, t.id);
    CrowdedStep(stores, store, i, b);
    if store.Some? && store.value.status == b {
      StoredBesides(stores, store.value, b, s, i);
    } else if !Crowded(stores, i, b) {
      NewerStep(stores, store, i, b);
      SubsetCount(NewerIds(after, i, b), NewerIds(stores, i, b));
      assert stores[..|stores|] == stores;
    }
    if store.Some? {
      WithoutFacts(s, store.value.id);
    }
  }

  lemma StoredBesides(stores: seq<Option<Task>>, x: Task, b: Bucket, s: seq<Task>, i: nat)
    requires BucketSays(stores, b, s) && LatestAt(stores, i, b) && x.status == b && x.id != stores[i].value.id
    ensures stores[i].value in StoredIn(b, s, x) <==> !Crowded(stores, i, b) && |NewerIds(stores + [Some(x)], i, b)| < 200
  {
    hide Crowded;
    var after, t, all := stores + [Some(x)], stores[i].value, Without(s, x.id) + [x];
    WithoutFacts(s, x.id);
    StoredLastly(b, s, x);
    if !Crowded(stores, i, b) {
      AllInOrder(stores, x, s);
      AllHoldsNewer(stores, x, b, s, i);
      PlaceInAll(after, b, all, i);
    }
  }

  /** In a bucket with everything newer, trimming keeps what fewer than 200 ids are newer than. */
  lemma PlaceInAll(stores: seq<Option<Task>>, b: Bucket, all: seq<Task>, i: nat)
    requires LatestInOrder(stores, all) && forall t | t in all :: t.status == b
    requires LatestAt(stores, i, b) && stores[i].value in all
    requires forall k: nat | i < k < |stores| && LatestAt(stores, k, b) :: stores[k].value in all
    ensures stores[i].value in Last(all, BUCKET_LIMIT) <==> |NewerIds(stores, i, b)| < 200
  {
    hide NewerIds;
    var p :| 0 <= p < |all| && all[p] == stores[i].value;
    TailIds(stores, b, all, i, p);
    assert DistinctIds(all);
    InLast(all, p);
  }

  lemma AllHoldsNewer(stores: seq<Option<Task>>, x: Task, b: Bucket, s: seq<Task>, i: nat)
    requires BucketSays(stores, b, s) && LatestAt(stores, i, b) && x.status == b && x.id != stores[i].value.id && !Crowded(stores, i, b)
    ensures var after, all := stores + [Some(x)], Without(s, x.id) + [x];
            && LatestAt(after, i, b) && after[i].value in all && (forall t | t in all :: t.status == b)
            && forall k: nat | i < k < |after| && LatestAt(after, k, b) :: after[k].value in all
  {
    hide Crowded;
    var after, all := stores + [Some(x)], Without(s, x.id) + [x];
    assert after[..|stores|] == stores;
    WithoutFacts(s, x.id);
    forall k: nat | i < k < |after| && LatestAt(after, k, b) ensures after[k].value in all {
      if k < |stores| {
        assert LatestAt(stores, k, b);
        NewerNotCrowded(stores, i, k, b);
      }
    }
  }

  lemma NewestNotCrowded(stores: seq<Option<Task>>, i: nat, b: Bucket)
    requires i == |stores| - 1
    ensures !Crowded(stores, i, b)
  {
    forall j | i < j <= |stores| ensures |NewerIds(stores[..j], i, b)| < 200 {
      assert NewerIds(stores[..j], i, b) == {};
    }
  }

  /** One more row keeps the bucket saying what the rows say. */
  lemma RowKeepsBucket(stores: seq<Option<Task>>, store: Option<Task>, b: Bucket, s: seq<Task>)
    requires BucketSays(stores, b, s)
    ensures BucketSays(stores + [store], b, if store.Some? then StoredIn(b, s, store.value) else s)
  {
    hide Crowded;
    var after, r := stores + [store], if store.Some? then StoredIn(b, s, store.value) else s;
    if store.Some? {
      StoredInOrder(stores, store.value, b, s);
      WithoutFacts(s, store.value.id);
      StoredLastly(b, s, store.value);
    } else {
      LaterRow(stores, store, s);
    }
    forall i: nat | LatestAt(after, i, b) ensures after[i].value in r <==> !Crowded(after, i, b) {
      if i < |stores| {
        OlderRow(stores, store, b, s, i);
      } else {
        NewestNotCrowded(after, i, b);
      }
    }
  }

  lemma StoredLastly(b: Bucket, s: seq<Task>, t: Task)
    ensures b == t.status ==> t in StoredIn(b, s, t)
    ensures forall u | u in StoredIn(b, s, t) :: (u == t && b == t.status) || (u in s && u.id != t.id)
  {
    WithoutFacts(s, t.id);
    var all := Without(s, t.id) + [t];
    if b == t.status {
      assert all[|all| - 1] == t && Last(all, BUCKET_LIMIT)[|Last(all, BUCKET_LIMIT)| - 1] == t;
      forall u | u in Last(all, BUCKET_LIMIT) ensures u in all {
      }
    }
  }

  /** Read from the start, each bucket holds exactly the tasks of its status that are the latest valid
      task events for their ids and were never crowded out, in ledger order. */
  lemma {:induction false} TasksAreLatest(rows: seq<Json>)
    ensures BucketSays(Stores(rows), Pending, Fold(rows).tasks.pending)
    ensures BucketSays(Stores(rows), Processing, Fold(rows).tasks.processing)
    ensures BucketSays(Stores(rows), Done, Fold(rows).tasks.done)
  {
    hide BucketSays, StoredIn;
    if rows == [] {
      NothingStored();
    } else {
      var front, row := rows[..|rows| - 1], rows[|rows| - 1];
      var store := StoredTask(EventOf(row));
      assert Stores(rows) == Stores(front) + [store];
      TasksAreLatest(front);
      RowKeepsBucket(Stores(front), store, Pending, Fold(front).tasks.pending);
      RowKeepsBucket(Stores(front), store, Processing, Fold(front).tasks.processing);
      RowKeepsBucket(Stores(front), store, Done, Fold(front).tasks.done);
    }
  }

  lemma NothingStored()
    ensures Stores([]) == [] && forall b :: BucketSays([], b, [])
  {
  }

  /** The rows after `i` that store a task of status `b`. */
  ghost function LaterRows(stores: seq<Option<Task>>, i: nat, b: Bucket): set<nat> {
    set k: nat | i < k < |stores| && stores[k].Some? && stores[k].value.status == b
  }

  lemma {:induction false} IdCount(stores: seq<Option<Task>>, ks: set<nat>)
    requires forall k | k in ks :: k < |stores| && stores[k].Some?
    ensures |set k | k in ks :: stores[k].value.id| <= |ks|
  {
    if ks != {} {
      var k :| k in ks;
      IdCount(stores, ks - {k});
      assert (set j | j in ks :: stores[j].value.id) == (set j | j in ks - {k} :: stores[j].value.id) + {stores[k].value.id};
    }
  }

  /** In particular, a task whose row is the last one for its id is in the bucket of its status while
      fewer than 200 later rows store a task of that status. */
  lemma RecentTaskIsIndexed(stores: seq<Option<Task>>, b: Bucket, s: seq<Task>, i: nat)
    requires BucketSays(stores, b, s) && LatestAt(stores, i, b) && |LaterRows(stores, i, b)| < 200
    ensures stores[i].value in s
  {
    hide LatestInOrder;
    var later := LaterRows(stores, i, b);
    IdCount(stores, later);
    forall j | i < j <= |stores| ensures |NewerIds(stores[..j], i, b)| < 200 {
      var ids := set k | k in later :: stores[k].value.id;
      forall id | id in NewerIds(stores[..j], i, b) ensures id in ids {
        var k: nat :| i < k < j && LatestAt(stores[..j], k, b) && stores[..j][k].value.id == id;
        assert k in later;
      }
      SubsetCount(NewerIds(stores[..j], i, b), ids);
    }
  }
}
