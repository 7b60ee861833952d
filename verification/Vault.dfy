/** The vault: in-memory state, files, and the durable writes of every operation in order. */
module Vault {
  import opened Json
  import opened Results
  import opened Chain
  import opened Tasks
  import opened Paths

  // ---- state and files ----

  datatype Standing = Active | Revoked

  datatype Node = Node(standing: Standing, joinedAt: Option<string>, lastSeen: Option<string>, role: string, ttl: int)

  datatype State = State(nodes: map<string, Node>, tasks: Index, messages: seq<Json>, lastSync: Option<string>, tampered: bool)

  const DEFAULT_STATE := State(map[], EMPTY_INDEX, [], None, false)
  const MESSAGE_LIMIT := 200
  const FILE_LIMIT := 1_048_576

  /** The files below the root; `state` is `None` while `state.json` cannot be read. */
  datatype Disk = Disk(ledger: seq<Line>, audit: seq<Line>, dirs: Dirs, state: Option<State>, other: map<Path, string>)

  const EMPTY_DISK := Disk([], [], EMPTY_DIRS, Some(DEFAULT_STATE), map[])

  /** A text, with what the readers of JSON lines and of the state file make of it. */
  datatype FileText = FileText(chars: string, asLines: seq<Line>, asState: Option<State>, utf8Length: nat)

  /** One durable write: each is a single append, atomic replace or unlink.  A ledger row is
      appended as the lines it will be read back as. */
  datatype Write =
    | LedgerLines(lines: seq<Line>)
    | AuditLine(line: Line)
    | TaskFile(task: Task)
    | DropTaskFile(status: Bucket, id: string)
    | SaveState(state: State)
    | TextFile(path: Path, text: FileText)

  function Perform(d: Disk, w: Write): Disk {
    match w
    case LedgerLines(lines) => d.(ledger := d.ledger + lines)
    case AuditLine(line) => d.(audit := d.audit + [line])
    case TaskFile(task) => d.(dirs := d.dirs.With(task.status, d.dirs.At(task.status)[task.id := task]))
    case DropTaskFile(status, id) => d.(dirs := d.dirs.With(status, d.dirs.At(status) - {id}))
    case SaveState(state) => d.(state := Some(state))
    case TextFile(path, text) =>
      if path == ["ledger.jsonl"] then d.(ledger := text.asLines)
      else if path == [".auth", "audit.jsonl"] then d.(audit := text.asLines)
      else if path == ["state.json"] then d.(state := text.asState)
      else d.(other := d.other[path := text.chars])
  }

  /** Only the names keep a text away from the chain and the state: written to their files it replaces them. */
  lemma TextsCanReplace(d: Disk, text: FileText)
    ensures Perform(d, TextFile(["ledger.jsonl"], text)) == d.(ledger := text.asLines)
    ensures Perform(d, TextFile([".auth", "audit.jsonl"], text)) == d.(audit := text.asLines)
    ensures Perform(d, TextFile(["state.json"], text)) == d.(state := text.asState)
  {
  }

  function PerformAll(d: Disk, ws: seq<Write>): Disk {
    if ws == [] then d else Perform(PerformAll(d, ws[..|ws| - 1]), ws[|ws| - 1])
  }

  lemma {:induction false} PerformAllConcat(d: Disk, a: seq<Write>, b: seq<Write>)
    ensures PerformAll(d, a + b) == PerformAll(PerformAll(d, a), b)
    decreases |b|
  {
    if b == [] {
      assert a + b == a;
    } else {
      var front := b[..|b| - 1];
      PerformAllConcat(d, a, front);
      assert (a + b)[..|a + b| - 1] == a + front;
    }
  }

  lemma PerformNone(d: Disk)
    ensures PerformAll(d, []) == d
  {
  }

  lemma PerformOne(d: Disk, w: Write)
    ensures PerformAll(d, [w]) == Perform(d, w)
  {
    assert [w][..0] == [];
  }

  datatype VaultError = NodeRevoked | InvalidStatus | AuditTampered | NotPrintable | ForbiddenPath | InvalidContent

  /** What an operation does: the new state, its durable writes in order, and the error it ends in.
      `NotPrintable` is the plain `ValueError` of canonical JSON; the rest are `VaultError`s. */
  datatype Effect = Effect(state: State, writes: seq<Write>, error: Option<VaultError>)

  datatype Vault = Vault(state: State, disk: Disk)

  function Commit(v: Vault, e: Effect): Vault {
    Vault(e.state, PerformAll(v.disk, e.writes))
  }

  function Saved(state: State): Effect {
    Effect(state, [SaveState(state)], None)
  }

  // ---- nodes ----

  function Register(s: State, nodeId: string, role: string, ttl: int, now: string): Effect {
    if nodeId in s.nodes && s.nodes[nodeId].standing == Revoked then Effect(s, [], Some(NodeRevoked))
    else
      var joinedAt := if nodeId in s.nodes then s.nodes[nodeId].joinedAt else Some(now);
      Saved(s.(nodes := s.nodes[nodeId := Node(Active, joinedAt, Some(now), role, ttl)]))
  }

  function Touch(s: State, nodeId: string, now: string): Effect {
    if nodeId in s.nodes then Saved(s.(nodes := s.nodes[nodeId := s.nodes[nodeId].(lastSeen := Some(now))]))
    else Effect(s, [], None)
  }

  function MarkRevoked(s: State, nodeId: string, now: string): Effect {
    var node := if nodeId in s.nodes then s.nodes[nodeId] else Node(Revoked, None, None, "collab", 0);
    var lastSeen := if node.lastSeen.Some? && node.lastSeen.value != "" then node.lastSeen else Some(now);
    Saved(s.(nodes := s.nodes[nodeId := node.(standing := Revoked, lastSeen := lastSeen)]))
  }

  function Revoke(s: State, nodeId: string, now: string): Effect {
    if nodeId in s.nodes then
      Saved(s.(nodes := s.nodes[nodeId := s.nodes[nodeId].(standing := Revoked, lastSeen := Some(now))]))
    else Effect(s, [], None)
  }

  // ---- tasks and events ----

  function DropsFor(t: Task): seq<Write> {
    match t.status
    case Pending => [DropTaskFile(Processing, t.id), DropTaskFile(Done, t.id)]
    case Processing => [DropTaskFile(Pending, t.id), DropTaskFile(Done, t.id)]
    case Done => [DropTaskFile(Pending, t.id), DropTaskFile(Processing, t.id)]
  }

  function Upsert(s: State, raw: map<string, Json>, freshId: string, now: string): Effect {
    match Normalized(raw, freshId, now)
    case None => Effect(s, [], Some(InvalidStatus))
    case Some(task) =>
      var after := s.(tasks := Upserted(s.tasks, task));
      Effect(after, [TaskFile(task)] + DropsFor(task) + [SaveState(after)], None)
  }

  datatype Event = Event(id: string, ts: string, node: string, op: string, payload: map<string, Json>, sig: string)

  function RowOf(e: Event): Json {
    Obj(map["id" := Str(e.id), "ts" := Str(e.ts), "node" := Str(e.node), "op" := Str(e.op),
            "payload" := Obj(e.payload), "sig" := Str(e.sig)])
  }

  function MessageOf(e: Event): Json {
    Obj(map["id" := Str(e.id), "ts" := Str(e.ts), "node" := Str(e.node), "op" := Str(e.op), "payload" := Obj(e.payload)])
  }

  predicate IsMessage(e: Event) {
    e.op in {"message", "broadcast"}
  }

  /** The task dictionary an event carries. */
  function TaskPart(payload: map<string, Json>): map<string, Json> {
    match Get(payload, "task")
    case Obj(fields) => fields
    case _ => payload
  }

  /** The event names a task. */
  predicate IsTask(e: Event) {
    e.op == "task" && Truthy(Get(TaskPart(e.payload), "id"))
  }

  function Apply(s: State, e: Event, now: string): Effect {
    if IsMessage(e) then Effect(s.(messages := Last(s.messages + [MessageOf(e)], MESSAGE_LIMIT)), [], None)
    else if IsTask(e) then Upsert(s, TaskPart(e.payload), "", now)
    else if e.op == "join" then
      match Get(e.payload, "node_id")
      case Str(joined) =>
        if joined == "" then Effect(s, [], None)
        else
          var role := if "role" in e.payload then PyText(e.payload["role"]) else "collab";
          Register(s, joined, role, 0, now)
      case _ => Effect(s, [], None)
    else Effect(s, [], None)
  }

  function EnsureClean(h: string -> string, v: Vault): Effect {
    if Verifies(h, v.disk.ledger, v.disk.audit) then Effect(v.state, [], None)
    else
      var marked := v.state.(tampered := true);
      Effect(marked, [SaveState(marked)], Some(AuditTampered))
  }

  /** `append_event`; `now` is the clock when the event is applied. */
  function Append(h: string -> string, v: Vault, e: Event, now: string): Effect {
    var clean := EnsureClean(h, v);
    if clean.error.Some? then clean
    else if !Printable(RowOf(e)) then Effect(v.state, [], Some(NotPrintable))
    else
      var rows := [LedgerLines(WrittenLines(RowOf(e))), AuditLine(Value(AuditEntry(h, RowOf(e), v.disk.audit)))];
      var applied := Apply(v.state, e, now);
      if applied.error.Some? then Effect(applied.state, rows + applied.writes, applied.error)
      else
        var synced := applied.state.(lastSync := Some(e.ts), tampered := false);
        Effect(synced, rows + applied.writes + [SaveState(synced)], None)
  }

  // ---- file API and restart ----

  function WriteText(v: Vault, root: Path, requested: string, text: FileText): Effect {
    if text.utf8Length > FILE_LIMIT then Effect(v.state, [], Some(InvalidContent))
    else
      match SafePath(root, requested)
      case None => Effect(v.state, [], Some(ForbiddenPath))
      case Some(path) => Effect(v.state, [TextFile(if |root| <= |path| then path[|root|..] else path, text)], None)
  }

  /** `_load_state`. */
  function Load(d: Disk): State {
    if d.state.Some? then d.state.value else DEFAULT_STATE
  }

  // ---- first facts ----

  /** The writes of an upsert put the record in one directory and out of the others. */
  lemma UpsertFiles(d: Disk, t: Task, after: State)
    ensures PerformAll(d, [TaskFile(t)] + DropsFor(t) + [SaveState(after)]) == d.(dirs := Filed(d.dirs, t), state := Some(after))
  {
    var drops := DropsFor(t);
    assert [TaskFile(t)] + drops + [SaveState(after)] == [TaskFile(t), drops[0], drops[1], SaveState(after)];
    PerformFour(d, TaskFile(t), drops[0], drops[1], SaveState(after));
  }

  lemma PerformFour(d: Disk, w1: Write, w2: Write, w3: Write, w4: Write)
    ensures PerformAll(d, [w1, w2, w3, w4]) == Perform(Perform(Perform(Perform(d, w1), w2), w3), w4)
  {
    assert [w1, w2, w3, w4][..3] == [w1, w2, w3] && [w1, w2, w3][..2] == [w1, w2];
    PerformOne(d, w1);
    assert [w1, w2][..1] == [w1];
    assert PerformAll(d, [w1, w2]) == Perform(PerformAll(d, [w1]), w2);
    assert PerformAll(d, [w1, w2, w3]) == Perform(PerformAll(d, [w1, w2]), w3);
  }

  /** The other nodes and everything but the nodes are the same. */
  ghost predicate OnlyNode(s: State, after: State, nodeId: string) {
    && after == s.(nodes := after.nodes)
    && forall n | n != nodeId :: (n in after.nodes <==> n in s.nodes) && (n in s.nodes ==> after.nodes[n] == s.nodes[n])
  }

  /** A node that is not revoked becomes active with the role, the lifetime and the time, and keeps when it
      first joined; a revoked one is refused.  No other node changes, and the state is saved. */
  lemma RegisteredNode(s: State, nodeId: string, role: string, ttl: int, now: string)
    ensures var e := Register(s, nodeId, role, ttl, now);
            && (e.error.Some? <==> nodeId in s.nodes && s.nodes[nodeId].standing == Revoked)
            && (e.error.Some? ==> e == Effect(s, [], Some(NodeRevoked)))
            && (e.error.None? ==>
                  && OnlyNode(s, e.state, nodeId) && e.writes == [SaveState(e.state)] && nodeId in e.state.nodes
                  && var node := e.state.nodes[nodeId];
                     && node.standing == Active && node.role == role && node.ttl == ttl && node.lastSeen == Some(now)
                     && (nodeId in s.nodes ==> node.joinedAt == s.nodes[nodeId].joinedAt)
                     && (nodeId !in s.nodes ==> node.joinedAt == Some(now)))
  {
  }

  /** Touching a known node sets its time alone; revoking it sets its standing and its time; marking it does
      so too, makes it if it is missing, and keeps a time that is there. */
  lemma ChangedNode(s: State, nodeId: string, now: string)
    ensures nodeId !in s.nodes ==> Touch(s, nodeId, now) == Effect(s, [], None) && Revoke(s, nodeId, now) == Effect(s, [], None)
    ensures nodeId in s.nodes ==>
              var node, touched, revoked := s.nodes[nodeId], Touch(s, nodeId, now), Revoke(s, nodeId, now);
              && OnlyNode(s, touched.state, nodeId) && touched.writes == [SaveState(touched.state)] && touched.error.None?
              && OnlyNode(s, revoked.state, nodeId) && revoked.writes == [SaveState(revoked.state)] && revoked.error.None?
              && nodeId in touched.state.nodes && touched.state.nodes[nodeId] == node.(lastSeen := Some(now))
              && nodeId in revoked.state.nodes && revoked.state.nodes[nodeId] == node.(standing := Revoked, lastSeen := Some(now))
    ensures var marked := MarkRevoked(s, nodeId, now);
            && OnlyNode(s, marked.state, nodeId) && marked.writes == [SaveState(marked.state)] && marked.error.None?
            && nodeId in marked.state.nodes && marked.state.nodes[nodeId].standing == Revoked
            && (nodeId in s.nodes ==>
                  && marked.state.nodes[nodeId].role == s.nodes[nodeId].role && marked.state.nodes[nodeId].ttl == s.nodes[nodeId].ttl
                  && marked.state.nodes[nodeId].joinedAt == s.nodes[nodeId].joinedAt
                  && (s.nodes[nodeId].lastSeen.Some? && s.nodes[nodeId].lastSeen.value != "" ==>
                        marked.state.nodes[nodeId].lastSeen == s.nodes[nodeId].lastSeen))
  {
  }

  /** An accepted file write touches neither the chain nor the state file. */
  lemma WriteTextKeepsChain(h: string -> string, v: Vault, root: Path, requested: string, text: FileText)
    ensures var after := Commit(v, WriteText(v, root, requested, text));
            && after.disk.ledger == v.disk.ledger && after.disk.audit == v.disk.audit
            && after.disk.state == v.disk.state && after.disk.dirs == v.disk.dirs && after.state == v.state
            && Verifies(h, after.disk.ledger, after.disk.audit) == Verifies(h, v.disk.ledger, v.disk.audit)
  {
    if text.utf8Length <= FILE_LIMIT && SafePath(root, requested).Some? {
      AcceptedIsPlain(root, requested);
      var path := SafePath(root, requested).value;
      var rel := path[|root|..];
      assert rel[0] == path[|root|];
      PerformOne(v.disk, TextFile(rel, text));
    }
  }
}
