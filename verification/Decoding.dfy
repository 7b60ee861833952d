/** What the handlers make of the fields of a payload, said without their own helpers. */
module Decoding {
  import opened Text
  import opened Json
  import opened Results
  import opened Chain
  import opened Tasks
  import opened Paths
  import opened Vault
  import opened Handlers
  import opened VaultRuns

  // ---- events ----

  /** What applying an event does, on the fields of its row. */
  lemma EventEffect(s: State, e: Event, now: string)
    ensures var applied := Apply(s, e, now);
            && (e.op in ["message", "broadcast"] ==>
                  && applied.error.None? && applied.writes == [] && applied.state == s.(messages := applied.state.messages)
                  && var all := s.messages + [Obj(RowOf(e).fields - {"sig"})];
                     applied.state.messages == if |all| > 200 then all[|all| - 200..] else all)
            && (e.op == "join" && Get(e.payload, "node_id").Str? && Get(e.payload, "node_id").s != "" ==>
                  applied == Register(s, Get(e.payload, "node_id").s, if "role" in e.payload then PyText(e.payload["role"]) else "collab", 0, now))
            && (e.op == "task" && Truthy(Get(TaskGiven(e.payload), "id")) ==> applied == Upsert(s, TaskGiven(e.payload), "", now))
            && (e.op !in ["message", "broadcast"] && !(e.op == "task" && Truthy(Get(TaskGiven(e.payload), "id")))
                && !(e.op == "join" && Get(e.payload, "node_id").Str? && Get(e.payload, "node_id").s != "") ==>
                  applied == Effect(s, [], None))
  {
    hide Upsert, Register, PyText, Truthy;
    assert RowOf(e).fields - {"sig"} ==
           map["id" := Str(e.id), "ts" := Str(e.ts), "node" := Str(e.node), "op" := Str(e.op), "payload" := Obj(e.payload)];
  }

  /** The task dictionary of an event: its field `task`, or the payload itself. */
  function TaskGiven(payload: map<string, Json>): map<string, Json> {
    if "task" in payload && payload["task"].Obj? then payload["task"].fields else payload
  }

  /** A relayed event is answered by what became of it: nothing is appended to a broken chain, or of a payload
      that cannot be printed, and the reply is an error, too, when the event is refused after its row is
      appended. */
  lemma RelayReplies(h: string -> string, v: Vault, e: Event, now: string)
    ensures var (after, reply) := RelayCall(h, v, e, now);
            if !Verifies(h, v.disk.ledger, v.disk.audit) then reply == Unavailable && after.disk.ledger == v.disk.ledger
            else if !Printable(RowOf(e)) then reply == ServerError && after == v
            else
              && after.disk.ledger == v.disk.ledger + WrittenLines(RowOf(e))
              && reply == if Apply(v.state, e, now).error.None? then Accepted else Unavailable
  {
    hide Verifies, Printable, Apply, RowOf, WrittenLines, AuditEntry;
    AppendLedger(h, v, e, now);
    PerformNone(v.disk);
    ApplyErrors(v.state, e, now);
  }

  lemma ApplyErrors(s: State, e: Event, now: string)
    ensures Apply(s, e, now).error != Some(NotPrintable)
  {
  }

  // ---- task requests ----

  /** The task a task request gives: its field `task`, or the payload without the action. */
  function TaskAsked(payload: map<string, Json>): map<string, Json> {
    if "task" in payload && payload["task"].Obj? then payload["task"].fields else payload - {"action"}
  }

  predicate Claims(payload: map<string, Json>) {
    Get(payload, "action") == Str("claim")
  }

  predicate Completes(payload: map<string, Json>) {
    Get(payload, "action") == Str("complete") || Get(payload, "action") == Str("done")
  }

  /** The fields that are not simply those of the request. */
  predicate Sets(payload: map<string, Json>, f: string) {
    || f == "id" || f == "status" || f == "updated_at"
    || (Claims(payload) && f == "claimed_by") || (Completes(payload) && f == "completed_by")
  }

  /** `saved` is the task that a request of `node` stores: a claim makes it processing and claimed by the node,
      a completion done and completed by the node, anything else leaves its status; all other fields are those
      of the request. */
  ghost predicate TaskRecorded(payload: map<string, Json>, node: string, k: Stamps, saved: Task) {
    var asked, r := TaskAsked(payload), TaskFields(saved);
    && (Claims(payload) ==> saved.status == Processing && "claimed_by" in r && r["claimed_by"] == Str(node))
    && (Completes(payload) ==> saved.status == Done && "completed_by" in r && r["completed_by"] == Str(node))
    && (!Claims(payload) && !Completes(payload) ==> Some(saved.status) == ParseStatus(Get(asked, "status")))
    && (forall f | !Sets(payload, f) :: (f in r <==> f in asked) && (f in asked ==> r[f] == asked[f]))
    && (Truthy(Get(asked, "id")) && asked["id"].Str? ==> Str(saved.id) == asked["id"])
    && (!Truthy(Get(asked, "id")) ==> saved.id == k.freshTaskId)
    && "updated_at" in r && r["updated_at"] == (if "updated_at" in asked then asked["updated_at"] else Str(k.stored))
    && "id" in r && r["id"] == Str(saved.id)
    && "status" in r && r["status"] == Str(match saved.status case Pending => "pending" case Processing => "processing" case Done => "done")
  }

  /** The request gives a status, or sets one. */
  predicate StatusGiven(payload: map<string, Json>) {
    Claims(payload) || Completes(payload) || ParseStatus(Get(TaskAsked(payload), "status")).Some?
  }

  lemma RequestedFields(payload: map<string, Json>, node: string)
    ensures var asked, raw := TaskAsked(payload), RequestedTask(payload, node);
            && (Claims(payload) ==> Get(raw, "status") == Str("processing") && Get(raw, "claimed_by") == Str(node) && "claimed_by" in raw)
            && (Completes(payload) ==> Get(raw, "status") == Str("done") && Get(raw, "completed_by") == Str(node) && "completed_by" in raw)
            && (!Claims(payload) && !Completes(payload) ==> raw == asked)
            && forall f | f == "id" || f == "updated_at" || !Sets(payload, f) :: (f in raw <==> f in asked) && (f in asked ==> raw[f] == asked[f])
  {
  }

  /** What is stored has the fields of the record it is stored from. */
  ghost predicate KeptFields(raw: map<string, Json>, k: Stamps, saved: Task) {
    var r := TaskFields(saved);
    && (forall f | f != "id" && f != "status" && f != "updated_at" :: (f in r <==> f in raw) && (f in raw ==> r[f] == raw[f]))
    && (Truthy(Get(raw, "id")) && raw["id"].Str? ==> Str(saved.id) == raw["id"])
    && (!Truthy(Get(raw, "id")) ==> saved.id == k.freshTaskId)
    && "updated_at" in r && r["updated_at"] == (if "updated_at" in raw then raw["updated_at"] else Str(k.stored))
    && "id" in r && r["id"] == Str(saved.id)
    && "status" in r && r["status"] == Str(match saved.status case Pending => "pending" case Processing => "processing" case Done => "done")
  }

  lemma NormalizedKept(raw: map<string, Json>, k: Stamps)
    requires Normalized(raw, k.freshTaskId, k.stored).Some?
    ensures KeptFields(raw, k, Normalized(raw, k.freshTaskId, k.stored).value)
  {
    hide ParseStatus, Truthy, PyText, Normalized;
    StoredFields(raw, k.freshTaskId, k.stored);
  }

  lemma RecordedFields(payload: map<string, Json>, node: string, raw: map<string, Json>, k: Stamps, saved: Task)
    requires KeptFields(raw, k, saved) && Some(saved.status) == ParseStatus(Get(raw, "status"))
    requires Claims(payload) ==> saved.status == Processing && "claimed_by" in raw && raw["claimed_by"] == Str(node)
    requires Completes(payload) ==> saved.status == Done && "completed_by" in raw && raw["completed_by"] == Str(node)
    requires !Claims(payload) && !Completes(payload) ==> raw == TaskAsked(payload)
    requires forall f | f == "id" || f == "updated_at" || !Sets(payload, f) ::
               (f in raw <==> f in TaskAsked(payload)) && (f in TaskAsked(payload) ==> raw[f] == TaskAsked(payload)[f])
    ensures TaskRecorded(payload, node, k, saved)
  {
    hide TaskFields, TaskAsked, ParseStatus;
  }

  lemma Requested(payload: map<string, Json>, node: string, k: Stamps)
    ensures var saved := Normalized(RequestedTask(payload, node), k.freshTaskId, k.stored);
            && (saved.Some? <==> StatusGiven(payload))
            && (saved.Some? ==> TaskRecorded(payload, node, k, saved.value))
  {
    hide ParseStatus, Normalized, RequestedTask, TaskAsked, Sets, TaskRecorded, KeptFields;
    var raw := RequestedTask(payload, node);
    RequestedFields(payload, node);
    StoredFields(raw, k.freshTaskId, k.stored);
    BucketNameParses(Processing);
    BucketNameParses(Done);
    if Normalized(raw, k.freshTaskId, k.stored).Some? {
      NormalizedKept(raw, k);
      RecordedFields(payload, node, raw, k, Normalized(raw, k.freshTaskId, k.stored).value);
    }
  }

  /** The row of a task request. */
  function TaskRow(node: string, action: Json, task: map<string, Json>, sig: string, k: Stamps): Json {
    Obj(map["id" := Str(k.eventId), "ts" := Str(k.ts), "node" := Str(node), "op" := Str("task"), "sig" := Str(sig),
            "payload" := Obj(map["action" := action, "task" := Obj(task)])])
  }

  lemma TaskRowOf(node: string, action: Json, saved: Task, sig: string, k: Stamps)
    ensures RowOf(TaskEvent(node, action, saved, sig, k)) == TaskRow(node, action, TaskFields(saved), sig, k)
  {
  }

  /** What a stored and appended task leaves: the task in the bucket of its status, and one row. */
  ghost predicate TaskStored(v: Vault, after: Vault, saved: Task, row: Json) {
    && after.disk.ledger == v.disk.ledger + WrittenLines(row)
    && saved in after.state.tasks.At(saved.status) && after.state.messages == v.state.messages && after.state.nodes == v.state.nodes
  }

  lemma StoreAndAppendStores(h: string -> string, v: Vault, raw: map<string, Json>, node: string, action: Json, sig: string, k: Stamps)
    requires Verifies(h, v.disk.ledger, v.disk.audit) && k.freshTaskId != ""
    requires Printable(Obj(raw)) && Printable(action) && Normalized(raw, k.freshTaskId, k.stored).Some?
    ensures var saved := Normalized(raw, k.freshTaskId, k.stored).value;
            var (after, error) := StoreAndAppend(h, v, raw, node, action, sig, k);
            error.None? && TaskStored(v, after, saved, TaskRow(node, action, TaskFields(saved), sig, k))
  {
    hide Verifies, Printable, TaskFields, Normalized, RowOf, WrittenLines, AuditEntry, Truthy;
    var saved := Normalized(raw, k.freshTaskId, k.stored).value;
    var e := TaskEvent(node, action, saved, sig, k);
    var v1 := Commit(v, Upsert(v.state, raw, k.freshTaskId, k.stored));
    PrintableSaved(raw, node, action, sig, k);
    TaskRowOf(node, action, saved, sig, k);
    UpsertFiles(v.disk, saved, v.state.(tasks := Upserted(v.state.tasks, saved)));
    TaskEventStores(node, action, raw, sig, k);
    AppendOutcome(h, v1, e, k.applied);
    StoredEvent(v1.state, e, k.applied, saved);
  }

  /** An event that carries a task puts it into its bucket. */
  lemma StoredEvent(s: State, e: Event, now: string, saved: Task)
    requires !IsMessage(e) && AppliedTask(e, now) == Some(saved)
    ensures var applied := Apply(s, e, now);
            && applied.error.None? && applied.state == s.(tasks := Upserted(s.tasks, saved))
            && saved in applied.state.tasks.At(saved.status)
  {
    hide Normalized;
    var bucket := s.tasks.At(saved.status);
    assert MovedToEnd(bucket, saved)[|MovedToEnd(bucket, saved)| - 1] == saved;
  }

  /** A task request on a verifying chain, with an action that is neither a list nor an object: without a valid
      status it is refused and changes nothing; otherwise it stores exactly the task it asks for and appends one
      row with the action and that task. */
  lemma TaskCallStores(h: string -> string, v: Vault, payload: map<string, Json>, node: string, sig: string, k: Stamps)
    requires Verifies(h, v.disk.ledger, v.disk.audit) && k.freshTaskId != "" && Printable(Obj(payload))
    requires !Get(payload, "action").List? && !Get(payload, "action").Obj?
    ensures var (after, reply) := TaskCall(h, v, payload, node, sig, k);
            var action := if "action" in payload then payload["action"] else Str("create");
            if !StatusGiven(payload) then reply == BadRequest && after == v
            else
              && reply == Accepted
              && exists saved :: TaskRecorded(payload, node, k, saved)
                                 && TaskStored(v, after, saved, TaskRow(node, action, TaskFields(saved), sig, k))
  {
    hide Verifies, Printable, StoreAndAppend, Normalized, RequestedTask, TaskRecorded, StatusGiven, TaskStored, TaskRow, Upsert;
    Requested(payload, node, k);
    PrintableRequest(payload, node);
    PerformNone(v.disk);
    var raw := RequestedTask(payload, node);
    if StatusGiven(payload) {
      StoreAndAppendStores(h, v, raw, node, ActionOf(payload), sig, k);
    } else {
      NotStored(h, v, raw, node, ActionOf(payload), sig, k);
    }
  }

  lemma NotStored(h: string -> string, v: Vault, raw: map<string, Json>, node: string, action: Json, sig: string, k: Stamps)
    requires Normalized(raw, k.freshTaskId, k.stored).None?
    ensures StoreAndAppend(h, v, raw, node, action, sig, k) == (v, Some(InvalidStatus))
  {
  }

  /** On a broken chain, or with another action, a task request stores and appends nothing. */
  lemma TaskCallRefused(h: string -> string, v: Vault, payload: map<string, Json>, node: string, sig: string, k: Stamps)
    ensures var (after, reply) := TaskCall(h, v, payload, node, sig, k);
            if Get(payload, "action").List? || Get(payload, "action").Obj? then reply == ServerError && after == v
            else !Verifies(h, v.disk.ledger, v.disk.audit) ==>
                   && reply == Unavailable && after.disk.ledger == v.disk.ledger && after.disk.audit == v.disk.audit
                   && after.disk.dirs == v.disk.dirs && after.state.tasks == v.state.tasks && after.state.messages == v.state.messages
  {
    hide Verifies, StoreAndAppend, RequestedTask;
    PerformOne(v.disk, SaveState(v.state.(tampered := true)));
  }

  // ---- exports ----

  /** `saved` is what exporting `source` stores: processing if it is being worked on, done if it is done, pending
      otherwise, with its origin; all other fields are those of the source. */
  ghost predicate ExportRecorded(source: map<string, Json>, k: Stamps, saved: Task) {
    var status, r := Get(source, "status"), TaskFields(saved);
    && saved.status == (if status == Str("working") || status == Str("processing") then Processing
                        else if status == Str("done") then Done else Pending)
    && "exported_from" in r && r["exported_from"] == Str("hermes-internal")
    && (forall f | f != "id" && f != "status" && f != "updated_at" && f != "exported_from" :: (f in r <==> f in source) && (f in source ==> r[f] == source[f]))
    && (Truthy(Get(source, "id")) && source["id"].Str? ==> Str(saved.id) == source["id"])
    && "updated_at" in r && r["updated_at"] == if "updated_at" in source then source["updated_at"] else Str(k.stored)
  }

  lemma ExportedFields(source: map<string, Json>)
    ensures var status, raw := Get(source, "status"), ExportedTask(source);
            && Get(raw, "status") == Str(if status == Str("working") || status == Str("processing") then "processing"
                                         else if status == Str("done") then "done" else "pending")
            && "exported_from" in raw && raw["exported_from"] == Str("hermes-internal")
            && forall f | f != "status" && f != "exported_from" :: (f in raw <==> f in source) && (f in source ==> raw[f] == source[f])
  {
  }

  lemma Exported(source: map<string, Json>, k: Stamps)
    ensures var saved := Normalized(ExportedTask(source), k.freshTaskId, k.stored);
            saved.Some? && ExportRecorded(source, k, saved.value)
  {
    hide ParseStatus, Normalized, ExportedTask, TaskFields;
    var raw := ExportedTask(source);
    ExportedFields(source);
    StoredFields(raw, k.freshTaskId, k.stored);
    BucketNameParses(Pending);
    BucketNameParses(Processing);
    BucketNameParses(Done);
    NormalizedKept(raw, k);
  }

  lemma PrintableText(s: string)
    ensures Printable(Str(s))
  {
  }

  /** An export of a printable task on a verifying chain stores exactly that task and appends one row with it. */
  lemma ExportCallStores(h: string -> string, v: Vault, source: map<string, Json>, localNode: string, k: Stamps)
    requires Verifies(h, v.disk.ledger, v.disk.audit) && k.freshTaskId != "" && Printable(Obj(source))
    requires !Get(source, "status").List? && !Get(source, "status").Obj?
    ensures var (after, reply) := ExportCall(h, v, source, localNode, k);
            && reply == Accepted
            && exists saved :: ExportRecorded(source, k, saved)
                               && TaskStored(v, after, saved, TaskRow(localNode, Str("export"), TaskFields(saved), "local-export", k))
  {
    hide Verifies, Printable, StoreAndAppend, Normalized, ExportedTask, ExportRecorded, TaskStored, TaskRow;
    Exported(source, k);
    PrintableExport(source);
    PrintableText("export");
    PerformNone(v.disk);
    StoreAndAppendStores(h, v, ExportedTask(source), localNode, Str("export"), "local-export", k);
  }

  // ---- file writes ----

  function FileRow(node: string, name: string, sig: string, k: Stamps): Json {
    Obj(map["id" := Str(k.eventId), "ts" := Str(k.ts), "node" := Str(node), "op" := Str("file_update"), "sig" := Str(sig),
            "payload" := Obj(map["action" := Str("write"), "path" := Str(name)])])
  }

  /** A file write on a verifying chain with an accepted name and size leaves exactly the text at the path below
      the root, every other file as it was, and one row with the name; anything else leaves the vault as it
      was. */
  lemma FileCallWrites(h: string -> string, root: Path, v: Vault, requested: string, text: FileText, node: string, sig: string, k: Stamps)
    requires Verifies(h, v.disk.ledger, v.disk.audit)
    ensures var (after, reply) := FileCall(h, root, v, requested, text, node, sig, k);
            match SafePath(root, requested)
            case None => reply == Forbidden && after == v
            case Some(path) =>
              if text.utf8Length > 1_048_576 then reply == Forbidden && after == v
              else
                && reply == Accepted && |root| <= |path|
                && after.disk.other == v.disk.other[path[|root|..] := text.chars]
                && after.disk.ledger == v.disk.ledger + WrittenLines(FileRow(node, Join(path[|root|..], '/'), sig, k))
                && after.disk.dirs == v.disk.dirs && after.state.tasks == v.state.tasks && after.state.messages == v.state.messages
  {
    hide Verifies, SafePath, WrittenLines, AuditEntry;
    PerformNone(v.disk);
    if text.utf8Length <= FILE_LIMIT && SafePath(root, requested).Some? {
      var path := SafePath(root, requested).value;
      AcceptedIsPlain(root, requested);
      WriteTextKeepsChain(h, v, root, requested, text);
      var v1, e := Commit(v, WriteText(v, root, requested, text)), FileEvent(node, Join(path[|root|..], '/'), sig, k);
      assert path[|root|..][0] == path[|root|];
      PerformOne(v.disk, TextFile(path[|root|..], text));
      FileRowOf(node, Join(path[|root|..], '/'), sig, k);
      AppendOutcome(h, v1, e, k.applied);
    }
  }

  lemma FileCallRefused(h: string -> string, root: Path, v: Vault, requested: string, text: FileText, node: string, sig: string, k: Stamps)
    requires !Verifies(h, v.disk.ledger, v.disk.audit)
    ensures var (after, reply) := FileCall(h, root, v, requested, text, node, sig, k);
            && reply == Unavailable && after.disk == v.disk.(state := after.disk.state)
            && after.state.tasks == v.state.tasks && after.state.messages == v.state.messages
  {
    hide Verifies, SafePath;
    PerformOne(v.disk, SaveState(v.state.(tampered := true)));
  }

  lemma FileRowOf(node: string, name: string, sig: string, k: Stamps)
    ensures RowOf(FileEvent(node, name, sig, k)) == FileRow(node, name, sig, k) && Printable(FileRow(node, name, sig, k))
  {
  }
}
