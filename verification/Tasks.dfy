/** The three-bucket task index and its mirror on disk. */
module Tasks {
  import opened Text
  import opened Json
  import opened Results

  datatype Bucket = Pending | Processing | Done

  /** The order of `TASK_STATUSES`. */
  const BUCKETS := [Pending, Processing, Done]
  const BUCKET_LIMIT := 200

  function BucketName(b: Bucket): string {
    match b
    case Pending => "pending"
    case Processing => "processing"
    case Done => "done"
  }

  type Extra = m: map<string, Json> | "id" !in m && "status" !in m witness map[]

  /** A stored task: `extra` holds every field but the id and the status. */
  datatype Task = Task(id: string, status: Bucket, extra: Extra)

  /** The task as the dictionary it is. */
  function TaskFields(t: Task): map<string, Json> {
    t.extra["id" := Str(t.id)]["status" := Str(BucketName(t.status))]
  }

  /** A dictionary with one value for each status. */
  datatype ByStatus<T> = ByStatus(pending: T, processing: T, done: T) {
    function At(b: Bucket): T {
      match b
      case Pending => pending
      case Processing => processing
      case Done => done
    }

    function With(b: Bucket, value: T): ByStatus<T> {
      match b
      case Pending => this.(pending := value)
      case Processing => this.(processing := value)
      case Done => this.(done := value)
    }
  }

  type Index = ByStatus<seq<Task>>

  const EMPTY_INDEX: Index := ByStatus([], [], [])

  function ParseStatus(v: Json): Option<Bucket> {
    var status := if Truthy(v) then Lower(PyText(v)) else "pending";
    if status == "pending" then Some(Pending)
    else if status == "processing" || status == "working" then Some(Processing)
    else if status == "done" then Some(Done)
    else None
  }

  /** The record `upsert_task` stores for `raw`, `None` for an invalid status. */
  function Normalized(raw: map<string, Json>, freshId: string, now: string): Option<Task> {
    var id := if Truthy(Get(raw, "id")) then PyText(raw["id"]) else freshId;
    match ParseStatus(Get(raw, "status"))
    case None => None
    case Some(status) =>
      var extra := raw - {"id", "status"};
      Some(Task(id, status, if "updated_at" in extra then extra else extra["updated_at" := Str(now)]))
  }

  function Without(s: seq<Task>, id: string): seq<Task> {
    if s == [] then []
    else if s[0].id == id then Without(s[1..], id)
    else [s[0]] + Without(s[1..], id)
  }

  /** `s[-n:]`. */
  function Last<T>(s: seq<T>, n: nat): seq<T> {
    if |s| > n then s[|s| - n..] else s
  }

  /** A bucket after `t` moves to its end. */
  function MovedToEnd(s: seq<Task>, t: Task): seq<Task> {
    Last(Without(s, t.id) + [t], BUCKET_LIMIT)
  }

  function StoredIn(b: Bucket, s: seq<Task>, t: Task): seq<Task> {
    if b == t.status then MovedToEnd(s, t) else Without(s, t.id)
  }

  /** The index after `t` is stored. */
  function Upserted(tasks: Index, t: Task): Index {
    ByStatus(StoredIn(Pending, tasks.pending, t), StoredIn(Processing, tasks.processing, t), StoredIn(Done, tasks.done, t))
  }

  // ---- the index invariant ----

  lemma WithoutFacts(s: seq<Task>, id: string)
    ensures |Without(s, id)| <= |s|
    ensures forall t :: t in Without(s, id) <==> t in s && t.id != id
    ensures (forall t | t in s :: t.id != id) ==> Without(s, id) == s
  {
    if s != [] {
      WithoutFacts(s[1..], id);
      assert s == [s[0]] + s[1..];
    }
  }

  predicate DistinctIds(s: seq<Task>) {
    forall i, j | 0 <= i < j < |s| :: s[i].id != s[j].id
  }

  lemma WithoutDistinct(s: seq<Task>, id: string)
    requires DistinctIds(s)
    ensures DistinctIds(Without(s, id))
  {
    if s != [] {
      var rest := Without(s[1..], id);
      WithoutDistinct(s[1..], id);
      WithoutFacts(s[1..], id);
      forall j | 0 <= j < |rest| ensures rest[j].id != s[0].id {
        assert rest[j] in s[1..];
      }
    }
  }

  lemma MovedFacts(s: seq<Task>, t: Task)
    requires DistinctIds(s)
    ensures var r := MovedToEnd(s, t);
            && 0 < |r| <= BUCKET_LIMIT && DistinctIds(r) && r[|r| - 1] == t
            && forall u | u in r :: u == t || (u in s && u.id != t.id)
  {
    var rest := Without(s, t.id);
    WithoutFacts(s, t.id);
    WithoutDistinct(s, t.id);
    LastOfDistinct(rest, t);
  }

  lemma LastOfDistinct(rest: seq<Task>, t: Task)
    requires DistinctIds(rest) && forall u | u in rest :: u.id != t.id
    ensures var r := Last(rest + [t], BUCKET_LIMIT);
            && 0 < |r| <= BUCKET_LIMIT && DistinctIds(r) && r[|r| - 1] == t
            && forall u | u in r :: u == t || u in rest
  {
    var all, r := rest + [t], Last(rest + [t], BUCKET_LIMIT);
    forall i, j | 0 <= i < j < |all| ensures all[i].id != all[j].id {
      assert all[i] == rest[i] && rest[i] in rest;
    }
    forall u | u in r ensures u in all {
    }
  }

  lemma WithoutLast(front: seq<Task>, t: Task)
    requires forall u | u in front :: u.id != t.id
    ensures Without(front + [t], t.id) == front
  {
    if front == [] {
      assert [] + [t] == [t] && [t][1..] == [];
    } else {
      WithoutLast(front[1..], t);
      assert (front + [t])[1..] == front[1..] + [t];
      assert front == [front[0]] + front[1..];
    }
  }

  lemma MovedAgain(s: seq<Task>, t: Task)
    requires DistinctIds(s)
    ensures MovedToEnd(MovedToEnd(s, t), t) == MovedToEnd(s, t)
  {
    MovedFacts(s, t);
    var r := MovedToEnd(s, t);
    var front := r[..|r| - 1];
    assert r == front + [t];
    forall u | u in front ensures u.id != t.id {
      var i :| 0 <= i < |front| && front[i] == u;
      assert r[i].id != r[|r| - 1].id;
    }
    WithoutLast(front, t);
  }

  ghost predicate BucketOk(b: Bucket, s: seq<Task>) {
    |s| <= BUCKET_LIMIT && DistinctIds(s) && forall t | t in s :: t.status == b
  }

  ghost predicate Apart(s: seq<Task>, r: seq<Task>) {
    forall t, u | t in s && u in r :: t.id != u.id
  }

  /** Each id is in at most one bucket, once; buckets hold at most 200 tasks of their own status. */
  ghost predicate IndexOk(tasks: Index) {
    && BucketOk(Pending, tasks.pending) && BucketOk(Processing, tasks.processing) && BucketOk(Done, tasks.done)
    && Apart(tasks.pending, tasks.processing) && Apart(tasks.pending, tasks.done) && Apart(tasks.processing, tasks.done)
  }

  /** The files of the three task directories, by id. */
  type Dirs = ByStatus<map<string, Task>>

  const EMPTY_DIRS: Dirs := ByStatus(map[], map[], map[])

  ghost predicate Mirrored(s: seq<Task>, dir: map<string, Task>) {
    forall t | t in s :: t.id in dir && dir[t.id] == t
  }

  /** Each id has at most one file, and every indexed task's file holds the same record. */
  ghost predicate FilesMirror(tasks: Index, dirs: Dirs) {
    && dirs.pending.Keys !! dirs.processing.Keys && dirs.pending.Keys !! dirs.done.Keys
    && dirs.processing.Keys !! dirs.done.Keys
    && Mirrored(tasks.pending, dirs.pending) && Mirrored(tasks.processing, dirs.processing)
    && Mirrored(tasks.done, dirs.done)
  }

  function FiledIn(b: Bucket, dir: map<string, Task>, t: Task): map<string, Task> {
    if b == t.status then dir[t.id := t] else dir - {t.id}
  }

  /** The directories after `t` is written to its own and unlinked from the others. */
  function Filed(dirs: Dirs, t: Task): Dirs {
    ByStatus(FiledIn(Pending, dirs.pending, t), FiledIn(Processing, dirs.processing, t), FiledIn(Done, dirs.done, t))
  }

  lemma BucketKept(b: Bucket, s: seq<Task>, t: Task)
    requires BucketOk(b, s)
    ensures BucketOk(b, Without(s, t.id)) && (b == t.status ==> BucketOk(b, MovedToEnd(s, t)))
  {
    WithoutFacts(s, t.id);
    WithoutDistinct(s, t.id);
    MovedFacts(s, t);
  }

  lemma ApartKept(s: seq<Task>, r: seq<Task>, t: Task)
    requires DistinctIds(s) && DistinctIds(r) && Apart(s, r)
    ensures Apart(Without(s, t.id), Without(r, t.id))
    ensures Apart(MovedToEnd(s, t), Without(r, t.id)) && Apart(Without(s, t.id), MovedToEnd(r, t))
  {
    WithoutFacts(s, t.id);
    WithoutFacts(r, t.id);
    MovedFacts(s, t);
    MovedFacts(r, t);
  }

  lemma UpsertKeepsIndex(tasks: Index, t: Task)
    requires IndexOk(tasks)
    ensures IndexOk(Upserted(tasks, t))
  {
    BucketKept(Pending, tasks.pending, t);
    BucketKept(Processing, tasks.processing, t);
    BucketKept(Done, tasks.done, t);
    ApartKept(tasks.pending, tasks.processing, t);
    ApartKept(tasks.pending, tasks.done, t);
    ApartKept(tasks.processing, tasks.done, t);
  }

  lemma MirrorKept(s: seq<Task>, dir: map<string, Task>, t: Task)
    requires DistinctIds(s) && Mirrored(s, dir)
    ensures Mirrored(Without(s, t.id), dir - {t.id}) && Mirrored(MovedToEnd(s, t), dir[t.id := t])
  {
    WithoutFacts(s, t.id);
    MovedFacts(s, t);
  }

  /** Storing a task keeps the index and its mirror on disk. */
  lemma UpsertKeepsMirror(tasks: Index, dirs: Dirs, t: Task)
    requires IndexOk(tasks) && FilesMirror(tasks, dirs)
    ensures IndexOk(Upserted(tasks, t)) && FilesMirror(Upserted(tasks, t), Filed(dirs, t))
  {
    UpsertKeepsIndex(tasks, t);
    MirrorKept(tasks.pending, dirs.pending, t);
    MirrorKept(tasks.processing, dirs.processing, t);
    MirrorKept(tasks.done, dirs.done, t);
  }

  /** Storing a record again changes nothing: not the index and not the files. */
  lemma UpsertIdempotent(tasks: Index, dirs: Dirs, t: Task)
    requires IndexOk(tasks)
    ensures Upserted(Upserted(tasks, t), t) == Upserted(tasks, t)
    ensures Filed(Filed(dirs, t), t) == Filed(dirs, t)
  {
    BucketStoredTwice(tasks.pending, t);
    BucketStoredTwice(tasks.processing, t);
    BucketStoredTwice(tasks.done, t);
    FiledTwice(Pending, dirs.pending, t);
    FiledTwice(Processing, dirs.processing, t);
    FiledTwice(Done, dirs.done, t);
  }

  lemma FiledTwice(b: Bucket, dir: map<string, Task>, t: Task)
    ensures FiledIn(b, FiledIn(b, dir, t), t) == FiledIn(b, dir, t)
  {
  }

  lemma BucketStoredTwice(s: seq<Task>, t: Task)
    requires DistinctIds(s)
    ensures MovedToEnd(MovedToEnd(s, t), t) == MovedToEnd(s, t)
    ensures Without(Without(s, t.id), t.id) == Without(s, t.id)
  {
    MovedAgain(s, t);
    WithoutFacts(s, t.id);
    WithoutFacts(Without(s, t.id), t.id);
  }

  /** The stored record normalises to itself, whatever the clock and the spare id. */
  lemma NormalizedAgain(raw: map<string, Json>, freshId: string, now: string, otherId: string, later: string)
    requires freshId != "" && Normalized(raw, freshId, now).Some?
    ensures Normalized(TaskFields(Normalized(raw, freshId, now).value), otherId, later) == Normalized(raw, freshId, now)
  {
    var t := Normalized(raw, freshId, now).value;
    var fields := TaskFields(t);
    assert fields["id"] == Str(t.id) && fields["status"] == Str(BucketName(t.status));
    PyTextNonEmpty(Get(raw, "id"));
    BucketNameParses(t.status);
    assert fields - {"id", "status"} == t.extra;
  }

  lemma PyTextNonEmpty(v: Json)
    ensures Truthy(v) ==> PyText(v) != ""
  {
    if v.List? || v.Obj? {
      WriteStart(v, "");
    }
  }

  lemma BucketNameParses(b: Bucket)
    ensures ParseStatus(Str(BucketName(b))) == Some(b)
  {
    assert Lower("pending") == "pending" && Lower("processing") == "processing" && Lower("done") == "done";
  }

  // ---- what storing a task does to a bucket ----

  /** `r` is `s` at ascending places. */
  ghost predicate Picks(s: seq<Task>, r: seq<Task>, places: seq<nat>) {
    && |places| == |r| && (forall p | 0 <= p < |r| :: places[p] < |s| && r[p] == s[places[p]])
    && forall p, q | 0 <= p < q < |r| :: places[p] < places[q]
  }

  ghost predicate Subsequence(s: seq<Task>, r: seq<Task>) {
    exists places :: Picks(s, r, places)
  }

  ghost predicate AllHave(s: seq<Task>, id: string) {
    forall u | u in s :: u.id == id
  }

  function Shifted(places: seq<nat>): (r: seq<nat>)
    ensures |r| == |places|
  {
    seq(|places|, i requires 0 <= i < |places| => places[i] + 1)
  }

  lemma ShiftedPicks(s: seq<Task>, r: seq<Task>, places: seq<nat>)
    requires s != [] && Picks(s[1..], r, places)
    ensures Picks(s, r, Shifted(places))
    ensures Picks(s, [s[0]] + r, [0] + Shifted(places))
  {
    forall p | 0 <= p < |r| ensures s[Shifted(places)[p]] == r[p] {
      assert s[1..][places[p]] == r[p];
    }
  }

  lemma {:induction false} WithoutPlaces(s: seq<Task>, id: string) returns (places: seq<nat>)
    ensures Picks(s, Without(s, id), places)
    ensures places != [] ==> AllHave(s[..places[0]], id)
  {
    if s == [] {
      places := [];
    } else {
      var rest := WithoutPlaces(s[1..], id);
      ShiftedPicks(s, Without(s[1..], id), rest);
      places := if s[0].id == id then Shifted(rest) else [0] + Shifted(rest);
      hide Picks;
      if s[0].id == id && rest != [] {
        StartsWith(s, id, rest[0]);
      }
    }
  }

  lemma StartsWith(s: seq<Task>, id: string, n: nat)
    requires s != [] && s[0].id == id && n < |s| && AllHave(s[1..][..n], id)
    ensures AllHave(s[..n + 1], id)
  {
    forall u | u in s[..n + 1] ensures u.id == id {
      var i :| 0 <= i < n + 1 && s[i] == u;
      assert i > 0 ==> s[1..][..n][i - 1] == u;
    }
  }

  lemma LaterPlaces(s: seq<Task>, r: seq<Task>, places: seq<nat>)
    requires Picks(s, r, places) && r != []
    ensures Picks(s, r[1..], places[1..])
  {
  }

  /** The tasks with another id. */
  ghost function Others(s: seq<Task>, id: string): set<Task> {
    set u | u in s && u.id != id
  }

  /** Storing `t` in its bucket puts it at the end; the tasks with another id stay, in their order, but
      for the first of them when there are 200. */
  lemma MovedPlaces(s: seq<Task>, t: Task)
    requires BucketOk(t.status, s)
    ensures var r, others := MovedToEnd(s, t), Others(s, t.id);
            && r != [] && r[|r| - 1] == t && |r| == (if |others| < 200 then |others| + 1 else 200)
            && Subsequence(s, r[..|r| - 1])
            && forall i | 0 <= i < |s| && s[i].id != t.id ::
                 s[i] in r[..|r| - 1] <==> |others| < 200 || !AllHave(s[..i], t.id)
  {
    hide Picks, DistinctIds, AllHave, Without, Subsequence;
    var rest, r := Without(s, t.id), MovedToEnd(s, t);
    OthersCount(s, t.id);
    WithoutSubsequence(s, t.id);
    if |rest| < 200 {
      WithoutFacts(s, t.id);
      assert r == rest + [t] && r[..|r| - 1] == rest;
    } else {
      WithoutFirst(s, t.id);
      assert r == rest[1..] + [t] && r[..|r| - 1] == rest[1..];
    }
  }

  lemma OthersCount(s: seq<Task>, id: string)
    requires DistinctIds(s)
    ensures |Without(s, id)| == |Others(s, id)| <= |s|
  {
    WithoutFacts(s, id);
    WithoutDistinct(s, id);
    TaskCount(Without(s, id));
    assert Others(s, id) == set u | u in Without(s, id);
  }

  lemma WithoutSubsequence(s: seq<Task>, id: string)
    ensures Subsequence(s, Without(s, id))
  {
    var places := WithoutPlaces(s, id);
  }

  lemma WithoutFirst(s: seq<Task>, id: string)
    requires DistinctIds(s) && Without(s, id) != []
    ensures var later := Without(s, id)[1..];
            Subsequence(s, later) && forall i | 0 <= i < |s| && s[i].id != id :: s[i] in later <==> !AllHave(s[..i], id)
  {
    hide AllHave;
    var places := WithoutPlaces(s, id);
    WithoutFacts(s, id);
    WithoutDistinct(s, id);
    LaterPlaces(s, Without(s, id), places);
    FirstFallsOut(s, id, Without(s, id), places);
  }

  lemma FirstFallsOut(s: seq<Task>, id: string, rest: seq<Task>, places: seq<nat>)
    requires DistinctIds(s) && DistinctIds(rest) && Picks(s, rest, places) && rest != [] && AllHave(s[..places[0]], id)
    requires forall u :: u in rest <==> u in s && u.id != id
    ensures forall i | 0 <= i < |s| && s[i].id != id :: s[i] in rest[1..] <==> !AllHave(s[..i], id)
  {
    forall i | 0 <= i < |s| && s[i].id != id ensures s[i] in rest[1..] <==> !AllHave(s[..i], id) {
      assert s[i] in rest;
      var p :| 0 <= p < |rest| && rest[p] == s[i];
      assert places[p] == i;
      if p > 0 {
        assert rest[1..][p - 1] == s[i];
        assert s[places[0]] in s[..i] && rest[0] in rest;
      } else {
        forall q | 0 <= q < |rest[1..]| ensures rest[1..][q].id != s[i].id {
        }
      }
    }
  }

  lemma {:induction false} TaskCount(s: seq<Task>)
    requires DistinctIds(s)
    ensures |set u | u in s| == |s|
  {
    if s != [] {
      var front, last := s[..|s| - 1], s[|s| - 1];
      assert s == front + [last];
      TaskCount(front);
      assert (set u | u in s) == (set u | u in front) + {last};
    }
  }

  /** Storing `t` puts it at the end of the bucket of its status, and takes its id out of the others.
      Every other task stays in its bucket, in its order, but for the first of that bucket when 200
      others are in it. */
  lemma UpsertPlaces(tasks: Index, t: Task, b: Bucket)
    requires IndexOk(tasks)
    ensures var s, r := tasks.At(b), Upserted(tasks, t).At(b);
            if b != t.status then Subsequence(s, r) && forall u :: u in r <==> u in Others(s, t.id)
            else
              && r != [] && r[|r| - 1] == t && Subsequence(s, r[..|r| - 1])
              && |r| == (if |Others(s, t.id)| < 200 then |Others(s, t.id)| + 1 else 200)
              && forall i | 0 <= i < |s| && s[i].id != t.id ::
                   s[i] in r[..|r| - 1] <==> |Others(s, t.id)| < 200 || !AllHave(s[..i], t.id)
  {
    hide Without, MovedToEnd, Subsequence, AllHave;
    var s := tasks.At(b);
    if b != t.status {
      WithoutSubsequence(s, t.id);
      WithoutFacts(s, t.id);
    } else {
      MovedPlaces(s, t);
    }
  }

  // ---- what is stored ----

  /** A text that is not one of the words: every value but a string starts otherwise. */
  lemma OnlyStrings(v: Json)
    requires !v.Str?
    ensures Lower(PyText(v)) !in ["pending", "processing", "working", "done"]
  {
    var text := PyText(v);
    if v.List? || v.Obj? {
      WriteStart(v, "");
    }
    assert text != "" && text[0] !in "pPwWdD" && Lower(text)[0] !in "pwd";
  }

  /** A missing or empty status is pending; `working` is processing; otherwise the status is one of the three
      words, in any letter case, and nothing else is a status. */
  lemma StatusIff(v: Json)
    ensures ParseStatus(v) == Some(Pending) <==> !Truthy(v) || (v.Str? && Lower(v.s) == "pending")
    ensures ParseStatus(v) == Some(Processing) <==> v.Str? && Lower(v.s) in ["processing", "working"]
    ensures ParseStatus(v) == Some(Done) <==> v.Str? && Lower(v.s) == "done"
  {
    if !v.Str? {
      OnlyStrings(v);
    } else {
      assert Lower("") == "";
    }
  }

  /** A record is stored exactly for a valid status.  It has that status, its own id as text or the spare one,
      the clock as its time if it has none, and every other field as it was given. */
  lemma StoredFields(raw: map<string, Json>, freshId: string, now: string)
    ensures var t := Normalized(raw, freshId, now);
            && (t.Some? <==> ParseStatus(Get(raw, "status")).Some?)
            && (t.Some? ==>
                  && Some(t.value.status) == ParseStatus(Get(raw, "status"))
                  && (!Truthy(Get(raw, "id")) ==> t.value.id == freshId)
                  && (Truthy(Get(raw, "id")) && raw["id"].Str? ==> raw["id"] == Str(t.value.id))
                  && (Truthy(Get(raw, "id")) && raw["id"].Num? ==> raw["id"].text == t.value.id)
                  && (forall k | k != "id" && k != "status" && k != "updated_at" ::
                        (k in t.value.extra <==> k in raw) && (k in raw ==> t.value.extra[k] == raw[k]))
                  && "updated_at" in t.value.extra
                  && t.value.extra["updated_at"] == if "updated_at" in raw then raw["updated_at"] else Str(now))
  {
  }

  // ---- tasks up to the time they were stored ----

  function Unstamped(t: Task): Task {
    t.(extra := t.extra - {"updated_at"})
  }

  function UnstampedSeq(s: seq<Task>): (r: seq<Task>)
    ensures |r| == |s|
  {
    seq(|s|, i requires 0 <= i < |s| => Unstamped(s[i]))
  }

  function UnstampedIndex(tasks: Index): Index {
    ByStatus(UnstampedSeq(tasks.pending), UnstampedSeq(tasks.processing), UnstampedSeq(tasks.done))
  }

  lemma {:induction false} WithoutUnstamped(s: seq<Task>, id: string)
    ensures Without(UnstampedSeq(s), id) == UnstampedSeq(Without(s, id))
  {
    if s != [] {
      WithoutUnstamped(s[1..], id);
      assert UnstampedSeq(s)[1..] == UnstampedSeq(s[1..]);
      assert UnstampedSeq([s[0]] + Without(s[1..], id)) == [Unstamped(s[0])] + UnstampedSeq(Without(s[1..], id));
    }
  }

  lemma StoredUnstamped(b: Bucket, s: seq<Task>, t: Task)
    ensures UnstampedSeq(StoredIn(b, s, t)) == StoredIn(b, UnstampedSeq(s), Unstamped(t))
  {
    WithoutUnstamped(s, t.id);
    var rest := Without(s, t.id);
    assert UnstampedSeq(rest + [t]) == UnstampedSeq(rest) + [Unstamped(t)];
  }

  /** Storing a task does not look at times. */
  lemma UpsertUnstamped(tasks: Index, t: Task)
    ensures UnstampedIndex(Upserted(tasks, t)) == Upserted(UnstampedIndex(tasks), Unstamped(t))
  {
    StoredUnstamped(Pending, tasks.pending, t);
    StoredUnstamped(Processing, tasks.processing, t);
    StoredUnstamped(Done, tasks.done, t);
  }

  lemma NormalizedUnstamped(raw: map<string, Json>, freshId: string, now: string, otherId: string, later: string)
    requires Truthy(Get(raw, "id"))
    ensures Normalized(raw, freshId, now).Some? <==> Normalized(raw, otherId, later).Some?
    ensures Normalized(raw, freshId, now).Some? ==>
              Unstamped(Normalized(raw, freshId, now).value) == Unstamped(Normalized(raw, otherId, later).value)
  {
    if Normalized(raw, freshId, now).Some? {
      var a, b := Unstamped(Normalized(raw, freshId, now).value), Unstamped(Normalized(raw, otherId, later).value);
      assert a.extra == b.extra;
    }
  }
}
