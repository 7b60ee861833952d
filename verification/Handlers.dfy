/** The order of steps in the request handlers that change the vault. */
module Handlers {
  import opened Text
  import opened Json
  import opened Results
  import opened Chain
  import opened Tasks
  import opened Paths
  import opened Vault

  /** What a call reads from the system: fresh ids and the clock. */
  datatype Stamps = Stamps(freshTaskId: string, eventId: string, ts: string, stored: string, applied: string)

  /** `FileRead` is whatever `read_file` gives, which is not modelled. */
  datatype Reply = Accepted | Unavailable | BadRequest | Forbidden | ServerError | FileRead

  /** The reply when `append_event` ends: only `VaultError`s are caught. */
  function AppendReply(error: Option<VaultError>): Reply {
    match error
    case None => Accepted
    case Some(NotPrintable) => ServerError
    case Some(_) => Unavailable
  }

  /** `api_relay`, once the envelope is verified. */
  function RelayCall(h: string -> string, v: Vault, e: Event, now: string): (Vault, Reply) {
    var appended := Append(h, v, e, now);
    (Commit(v, appended), AppendReply(appended.error))
  }

  function TaskEvent(node: string, action: Json, saved: Task, sig: string, k: Stamps): Event {
    Event(k.eventId, k.ts, node, "task", map["action" := action, "task" := Obj(TaskFields(saved))], sig)
  }

  /** Check the chain, store the task, append the stored task. */
  function StoreAndAppend(h: string -> string, v: Vault, raw: map<string, Json>, node: string, action: Json, sig: string, k: Stamps)
    : (Vault, Option<VaultError>)
  {
    var stored := Upsert(v.state, raw, k.freshTaskId, k.stored);
    if stored.error.Some? then (v, stored.error)
    else
      var saved := Normalized(raw, k.freshTaskId, k.stored).value;
      var v1 := Commit(v, stored);
      var appended := Append(h, v1, TaskEvent(node, action, saved, sig, k), k.applied);
      (Commit(v1, appended), appended.error)
  }

  /** What Python can look up in a set; asking for a list or a dictionary raises. */
  predicate Hashable(v: Json) {
    !v.List? && !v.Obj?
  }

  function ActionOf(payload: map<string, Json>): Json {
    if "action" in payload then payload["action"] else Str("create")
  }

  /** The task dictionary of a task request. */
  function RequestedTask(payload: map<string, Json>, node: string): map<string, Json> {
    var task := match Get(payload, "task") case Obj(fields) => fields case _ => payload - {"action"};
    var action := ActionOf(payload);
    if action == Str("claim") then task["status" := Str("processing")]["claimed_by" := Str(node)]
    else if action == Str("complete") || action == Str("done") then task["status" := Str("done")]["completed_by" := Str(node)]
    else task
  }

  /** `api_collab_task`, once the envelope is verified and its operation is `task`. */
  function TaskCall(h: string -> string, v: Vault, payload: map<string, Json>, node: string, sig: string, k: Stamps): (Vault, Reply) {
    var action := ActionOf(payload);
    if !Hashable(action) then (v, ServerError)
    else
      var clean := EnsureClean(h, v);
      if clean.error.Some? then (Commit(v, clean), Unavailable)
      else
        var (after, error) := StoreAndAppend(h, v, RequestedTask(payload, node), node, action, sig, k);
        (after, if error == Some(InvalidStatus) then BadRequest else AppendReply(error))
  }

  /** The task a local task is exported as. */
  function ExportedTask(source: map<string, Json>): map<string, Json> {
    var status := Get(source, "status");
    var name := if status == Str("working") || status == Str("processing") then "processing"
                else if status == Str("done") then "done" else "pending";
    source["status" := Str(name)]["exported_from" := Str("hermes-internal")]
  }

  /** `api_collab_export` of the local task `source`. */
  function ExportCall(h: string -> string, v: Vault, source: map<string, Json>, localNode: string, k: Stamps): (Vault, Reply) {
    if !Hashable(Get(source, "status")) then (v, ServerError)
    else
      var clean := EnsureClean(h, v);
      if clean.error.Some? then (Commit(v, clean), Unavailable)
      else
        var (after, error) := StoreAndAppend(h, v, ExportedTask(source), localNode, Str("export"), "local-export", k);
        (after, AppendReply(error))
  }

  /** The name `write_file` returns. */
  function WrittenName(root: Path, requested: string): string {
    match SafePath(root, requested)
    case None => ""
    case Some(path) => if |root| <= |path| then Join(path[|root|..], '/') else ""
  }

  function FileEvent(node: string, name: string, sig: string, k: Stamps): Event {
    Event(k.eventId, k.ts, node, "file_update", map["action" := Str("write"), "path" := Str(name)], sig)
  }

  /** The write action of `api_collab_file`, once the envelope is verified. */
  function FileCall(h: string -> string, root: Path, v: Vault, requested: string, text: FileText, node: string, sig: string, k: Stamps)
    : (Vault, Reply)
  {
    var clean := EnsureClean(h, v);
    if clean.error.Some? then (Commit(v, clean), Unavailable)
    else
      var written := WriteText(v, root, requested, text);
      if written.error.Some? then (v, Forbidden)
      else
        var v1 := Commit(v, written);
        var appended := Append(h, v1, FileEvent(node, WrittenName(root, requested), sig, k), k.applied);
        (Commit(v1, appended), AppendReply(appended.error))
  }

  /** `collab_state` notes in memory whether the chain verifies. */
  function Audited(h: string -> string, v: Vault): Vault {
    v.(state := v.state.(tampered := !Verifies(h, v.disk.ledger, v.disk.audit)))
  }

  /** A restart: the state file is read, then every node of the revoked store is marked. */
  function MarkAll(v: Vault, revoked: seq<string>, now: string): Vault {
    if revoked == [] then v
    else
      var before := MarkAll(v, revoked[..|revoked| - 1], now);
      Commit(before, MarkRevoked(before.state, revoked[|revoked| - 1], now))
  }

  function Restarted(d: Disk, revoked: seq<string>, now: string): Vault {
    MarkAll(Vault(Load(d), d), revoked, now)
  }

  datatype Step =
    | RelayStep(e: Event, now: string)
    | TaskStep(payload: map<string, Json>, node: string, sig: string, k: Stamps)
    | ExportStep(source: map<string, Json>, localNode: string, k: Stamps)
    | FileStep(requested: string, text: FileText, node: string, sig: string, k: Stamps)
    | RegisterStep(nodeId: string, role: string, ttl: int, now: string)
    | TouchStep(nodeId: string, now: string)
    | RevokeStep(nodeId: string, now: string)
    | AuditStep
    | RestartStep(revoked: seq<string>, now: string)

  function Next(h: string -> string, root: Path, v: Vault, step: Step): Vault {
    match step
    case RelayStep(e, now) => RelayCall(h, v, e, now).0
    case TaskStep(payload, node, sig, k) => TaskCall(h, v, payload, node, sig, k).0
    case ExportStep(source, localNode, k) => ExportCall(h, v, source, localNode, k).0
    case FileStep(requested, text, node, sig, k) => FileCall(h, root, v, requested, text, node, sig, k).0
    case RegisterStep(nodeId, role, ttl, now) => Commit(v, Register(v.state, nodeId, role, ttl, now))
    case TouchStep(nodeId, now) => Commit(v, Touch(v.state, nodeId, now))
    case RevokeStep(nodeId, now) => Commit(v, Revoke(v.state, nodeId, now))
    case AuditStep => Audited(h, v)
    case RestartStep(revoked, now) => Restarted(v.disk, revoked, now)
  }

  function Run(h: string -> string, root: Path, v: Vault, steps: seq<Step>): Vault {
    if steps == [] then v
    else Next(h, root, Run(h, root, v, steps[..|steps| - 1]), steps[|steps| - 1])
  }
}
