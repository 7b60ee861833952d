/** Whole runs of the vault: it says what its ledger says, it fails closed, it survives crashes. */
module VaultRuns {
  import opened Json
  import opened Results
  import opened Lines
  import opened Chain
  import opened Tasks
  import opened Paths
  import opened Vault
  import opened Ledger
  import opened Handlers

  // ---- what one append does ----

  /** The task that applying an event stores. */
  function AppliedTask(e: Event, now: string): Option<Task> {
    if !IsMessage(e) && IsTask(e) then Normalized(TaskPart(e.payload), "", now) else None
  }

  /** Applying an event writes at most a task's files and the state file. */
  lemma ApplyWrites(d: Disk, s: State, e: Event, now: string)
    ensures var applied := Apply(s, e, now);
            PerformAll(d, applied.writes) ==
            d.(dirs := if AppliedTask(e, now).Some? then Filed(d.dirs, AppliedTask(e, now).value) else d.dirs,
               state := if applied.writes == [] then d.state else Some(applied.state))
    ensures Apply(s, e, now).error.Some? ==> Apply(s, e, now).state == s && Apply(s, e, now).writes == []
  {
    var applied := Apply(s, e, now);
    if AppliedTask(e, now).Some? {
      UpsertFiles(d, AppliedTask(e, now).value, applied.state);
    } else if applied.writes != [] {
      PerformOne(d, SaveState(applied.state));
    }
  }

  /** Applying an event changes messages and tasks as the ledger view says. */
  lemma ApplyView(s: State, e: Event, now: string)
    ensures ViewOf(Apply(s, e, now).state) == ApplyToView(ViewOf(s), e)
    ensures Apply(s, e, now).state.tasks == if AppliedTask(e, now).Some? then Upserted(s.tasks, AppliedTask(e, now).value) else s.tasks
  {
    if !IsMessage(e) && IsTask(e) {
      var raw := TaskPart(e.payload);
      NormalizedUnstamped(raw, "", now, "", "");
      if Normalized(raw, "", now).Some? {
        UpsertUnstamped(s.tasks, Normalized(raw, "", now).value);
      }
    }
  }

  /** The files and the state after an append to a clean vault. */
  lemma AppendOutcome(h: string -> string, v: Vault, e: Event, now: string)
    requires Verifies(h, v.disk.ledger, v.disk.audit) && Printable(RowOf(e))
    ensures var applied := Apply(v.state, e, now);
            var after := Commit(v, Append(h, v, e, now));
            && after.disk.ledger == v.disk.ledger + WrittenLines(RowOf(e))
            && after.disk.audit == v.disk.audit + [Value(AuditEntry(h, RowOf(e), v.disk.audit))]
            && after.disk.other == v.disk.other
            && after.disk.dirs == (if AppliedTask(e, now).Some? then Filed(v.disk.dirs, AppliedTask(e, now).value) else v.disk.dirs)
            && (if applied.error.Some? then after.state == v.state && after.disk.state == v.disk.state
                else after.state == applied.state.(lastSync := Some(e.ts), tampered := false) && after.disk.state == Some(after.state))
  {
    hide Append, Commit, Apply, AppliedTask, PerformAll, RowOf, AuditEntry, WrittenLines, Verifies, Printable;
    AppendInSteps(h, v, e, now);
    ApplyWrites(WithRows(h, v.disk, e), v.state, e, now);
  }

  /** The files once the two rows of an event are written. */
  function WithRows(h: string -> string, d: Disk, e: Event): Disk {
    Perform(Perform(d, LedgerLines(WrittenLines(RowOf(e)))), AuditLine(Value(AuditEntry(h, RowOf(e), d.audit))))
  }

  /** An append to a clean vault, one write after the other. */
  lemma AppendInSteps(h: string -> string, v: Vault, e: Event, now: string)
    requires Verifies(h, v.disk.ledger, v.disk.audit) && Printable(RowOf(e))
    ensures var applied := Apply(v.state, e, now);
            var appended := Append(h, v, e, now);
            var d := PerformAll(WithRows(h, v.disk, e), applied.writes);
            && appended.error == applied.error
            && appended.state == (if applied.error.Some? then applied.state
                                  else applied.state.(lastSync := Some(e.ts), tampered := false))
            && Commit(v, appended) == Vault(appended.state, if applied.error.Some? then d else Perform(d, SaveState(appended.state)))
  {
    var applied, appended := Apply(v.state, e, now), Append(h, v, e, now);
    var line, auditLine := LedgerLines(WrittenLines(RowOf(e))), AuditLine(Value(AuditEntry(h, RowOf(e), v.disk.audit)));
    PerformTwo(v.disk, line, auditLine);
    if applied.error.Some? {
      PerformAllConcat(v.disk, [line, auditLine], applied.writes);
    } else {
      PerformThen(v.disk, [line, auditLine], applied.writes, SaveState(appended.state));
    }
  }

  lemma PerformThen(d: Disk, a: seq<Write>, b: seq<Write>, w: Write)
    ensures PerformAll(d, a + b + [w]) == Perform(PerformAll(PerformAll(d, a), b), w)
  {
    PerformAllConcat(d, a, b);
    PerformAllConcat(d, a + b, [w]);
    PerformOne(PerformAll(d, a + b), w);
  }

  lemma PerformTwo(d: Disk, w1: Write, w2: Write)
    ensures PerformAll(d, [w1, w2]) == Perform(Perform(d, w1), w2)
  {
    assert [w1, w2][..1] == [w1];
    PerformOne(d, w1);
  }

  // ---- the vault says what its ledger says ----

  /** The state file would bring back the same messages, tasks and nodes. */
  ghost predicate Synced(v: Vault) {
    && v.disk.state.Some?
    && v.disk.state.value.tasks == v.state.tasks
    && v.disk.state.value.messages == v.state.messages
    && v.disk.state.value.nodes == v.state.nodes
  }

  /** The chain verifies, and disk and index agree. */
  ghost predicate Sound(h: string -> string, v: Vault) {
    && Verifies(h, v.disk.ledger, v.disk.audit) && Readable(v.disk.audit)
    && Synced(v) && IndexOk(v.state.tasks) && FilesMirror(v.state.tasks, v.disk.dirs)
  }

  /** Moreover messages and tasks are what reading the ledger from the start gives. */
  ghost predicate Faithful(h: string -> string, v: Vault) {
    && Sound(h, v)
    && Rows(v.disk.ledger).Some? && ViewOf(v.state) == Fold(Rows(v.disk.ledger).value)
  }

  lemma AppendKeepsSound(h: string -> string, v: Vault, e: Event, now: string)
    requires Sound(h, v) && Printable(RowOf(e)) && NoLineBreak(RowOf(e))
    ensures var after := Commit(v, Append(h, v, e, now));
            && Sound(h, after) && Rows(after.disk.ledger) == Some(Rows(v.disk.ledger).value + [RowOf(e)])
            && ViewOf(after.state) == ApplyToView(ViewOf(v.state), e)
            && after.state.tasks == if AppliedTask(e, now).Some? then Upserted(v.state.tasks, AppliedTask(e, now).value) else v.state.tasks
  {
    var row := RowOf(e);
    AppendOutcome(h, v, e, now);
    AppendVerifiesIff(h, v.disk.ledger, v.disk.audit, false, row);
    ReadableAppend(v.disk.audit, Value(AuditEntry(h, row, v.disk.audit)));
    ApplyView(v.state, e, now);
    ApplyWrites(v.disk, v.state, e, now);
    if AppliedTask(e, now).Some? {
      UpsertKeepsMirror(v.state.tasks, v.disk.dirs, AppliedTask(e, now).value);
    }
  }

  /** One append keeps the vault faithful, also when applying the event fails. */
  lemma AppendKeepsFaithful(h: string -> string, v: Vault, e: Event, now: string)
    requires Faithful(h, v) && (Printable(RowOf(e)) ==> NoLineBreak(RowOf(e)))
    ensures Faithful(h, Commit(v, Append(h, v, e, now)))
  {
    if Printable(RowOf(e)) {
      AppendKeepsSound(h, v, e, now);
      FoldAppend(Rows(v.disk.ledger).value, e);
    } else {
      assert PerformAll(v.disk, []) == v.disk;
    }
  }

  /** A row with a line break is appended and breaks the chain. */
  lemma AppendBreaksChain(h: string -> string, v: Vault, e: Event, now: string)
    requires Verifies(h, v.disk.ledger, v.disk.audit) && Printable(RowOf(e)) && !NoLineBreak(RowOf(e))
    ensures var after := Commit(v, Append(h, v, e, now)).disk; !Verifies(h, after.ledger, after.audit)
  {
    AppendOutcome(h, v, e, now);
    AppendVerifiesIff(h, v.disk.ledger, v.disk.audit, false, RowOf(e));
  }

  lemma UpsertKeepsSound(h: string -> string, v: Vault, raw: map<string, Json>, freshId: string, now: string)
    requires Sound(h, v) && Normalized(raw, freshId, now).Some?
    ensures var after := Commit(v, Upsert(v.state, raw, freshId, now));
            && Sound(h, after) && after.disk.ledger == v.disk.ledger && after.disk.audit == v.disk.audit
            && after.state == v.state.(tasks := Upserted(v.state.tasks, Normalized(raw, freshId, now).value))
  {
    var t := Normalized(raw, freshId, now).value;
    UpsertFiles(v.disk, t, v.state.(tasks := Upserted(v.state.tasks, t)));
    UpsertKeepsMirror(v.state.tasks, v.disk.dirs, t);
  }

  /** The record an event carries is stored as it is. */
  lemma TaskEventStores(node: string, action: Json, raw: map<string, Json>, sig: string, k: Stamps)
    requires k.freshTaskId != "" && Normalized(raw, k.freshTaskId, k.stored).Some?
    ensures var saved := Normalized(raw, k.freshTaskId, k.stored).value;
            var e := TaskEvent(node, action, saved, sig, k);
            && !IsMessage(e) && AppliedTask(e, k.applied) == Some(saved) && StoredTask(e) == Some(Unstamped(saved))
  {
    var saved := Normalized(raw, k.freshTaskId, k.stored).value;
    var e := TaskEvent(node, action, saved, sig, k);
    NormalizedAgain(raw, k.freshTaskId, k.stored, "", k.applied);
    NormalizedAgain(raw, k.freshTaskId, k.stored, "", "");
    PyTextNonEmpty(Get(raw, "id"));
    assert TaskPart(e.payload) == TaskFields(saved);
    assert Truthy(Get(TaskFields(saved), "id"));
  }

  /** Storing a task, appending it and storing it again nets to one application of the event. */
  lemma StoreAndAppendIsOneApplication(h: string -> string, v: Vault, raw: map<string, Json>, node: string, action: Json, sig: string, k: Stamps)
    requires Faithful(h, v) && k.freshTaskId != "" && Normalized(raw, k.freshTaskId, k.stored).Some?
    requires var row := RowOf(TaskEvent(node, action, Normalized(raw, k.freshTaskId, k.stored).value, sig, k));
             Printable(row) && NoLineBreak(row)
    ensures var e := TaskEvent(node, action, Normalized(raw, k.freshTaskId, k.stored).value, sig, k);
            var after := StoreAndAppend(h, v, raw, node, action, sig, k).0;
            && Faithful(h, after) && Rows(after.disk.ledger) == Some(Rows(v.disk.ledger).value + [RowOf(e)])
            && ViewOf(after.state) == ApplyToView(ViewOf(v.state), e)
  {
    var saved := Normalized(raw, k.freshTaskId, k.stored).value;
    var e := TaskEvent(node, action, saved, sig, k);
    var v1 := Commit(v, Upsert(v.state, raw, k.freshTaskId, k.stored));
    UpsertKeepsSound(h, v, raw, k.freshTaskId, k.stored);
    TaskEventStores(node, action, raw, sig, k);
    AppendKeepsSound(h, v1, e, k.applied);
    UpsertIdempotent(v.state.tasks, v.disk.dirs, saved);
    UpsertUnstamped(v.state.tasks, saved);
    AppendKeepsMessages(h, v1, e, k.applied);
    FoldAppend(Rows(v.disk.ledger).value, e);
  }

  lemma AppendKeepsMessages(h: string -> string, v: Vault, e: Event, now: string)
    requires Sound(h, v) && Printable(RowOf(e)) && NoLineBreak(RowOf(e)) && !IsMessage(e)
    ensures Commit(v, Append(h, v, e, now)).state.messages == v.state.messages
  {
    AppendKeepsSound(h, v, e, now);
    assert ViewOf(Commit(v, Append(h, v, e, now)).state).messages == v.state.messages;
  }

  // ---- nodes and restarts leave the view alone ----

  lemma NodeChangeKeepsFaithful(h: string -> string, v: Vault, effect: Effect)
    requires Faithful(h, v)
    requires effect.state == v.state.(nodes := effect.state.nodes)
    requires effect.writes == [SaveState(effect.state)] || (effect.writes == [] && effect.state == v.state)
    ensures Faithful(h, Commit(v, effect))
  {
    hide Verifies, PerformAll, Readable, Rows, Fold, UnstampedIndex, IndexOk, FilesMirror;
    PerformOne(v.disk, SaveState(effect.state));
    assert effect.writes == [] ==> PerformAll(v.disk, effect.writes) == v.disk by {
      PerformNone(v.disk);
    }
  }

  lemma {:induction false} MarkAllKeepsFaithful(h: string -> string, v: Vault, revoked: seq<string>, now: string)
    requires Faithful(h, v)
    ensures Faithful(h, MarkAll(v, revoked, now))
  {
    if revoked != [] {
      MarkAllKeepsFaithful(h, v, revoked[..|revoked| - 1], now);
      var before := MarkAll(v, revoked[..|revoked| - 1], now);
      NodeChangeKeepsFaithful(h, before, MarkRevoked(before.state, revoked[|revoked| - 1], now));
    }
  }

  // ---- printable tasks ----

  lemma PrintableFields(fields: map<string, Json>, key: string, value: Json)
    requires Printable(Obj(fields)) && Printable(value)
    ensures Printable(Obj(fields[key := value]))
  {
  }

  lemma PrintableSaved(raw: map<string, Json>, node: string, action: Json, sig: string, k: Stamps)
    requires Printable(Obj(raw)) && Printable(action) && Normalized(raw, k.freshTaskId, k.stored).Some?
    ensures Printable(RowOf(TaskEvent(node, action, Normalized(raw, k.freshTaskId, k.stored).value, sig, k)))
  {
    var saved := Normalized(raw, k.freshTaskId, k.stored).value;
    assert Printable(Obj(saved.extra)) by {
      forall f | f in saved.extra ensures Printable(saved.extra[f]) {
      }
    }
    PrintableFields(saved.extra, "id", Str(saved.id));
    PrintableFields(saved.extra["id" := Str(saved.id)], "status", Str(BucketName(saved.status)));
    PrintableEvent(node, action, saved, sig, k);
  }

  lemma PrintableEvent(node: string, action: Json, saved: Task, sig: string, k: Stamps)
    requires Printable(Obj(TaskFields(saved))) && Printable(action)
    ensures Printable(RowOf(TaskEvent(node, action, saved, sig, k)))
  {
    hide TaskFields;
    var e := TaskEvent(node, action, saved, sig, k);
    assert e.payload.Keys == {"action", "task"};
    assert Printable(Obj(e.payload));
  }

  lemma PrintableRequest(payload: map<string, Json>, node: string)
    requires Printable(Obj(payload))
    ensures Printable(Obj(RequestedTask(payload, node))) && Printable(ActionOf(payload))
  {
    var task := match Get(payload, "task") case Obj(fields) => fields case _ => payload - {"action"};
    assert Printable(Obj(task));
    PrintableFields(task, "status", Str("processing"));
    PrintableFields(task["status" := Str("processing")], "claimed_by", Str(node));
    PrintableFields(task, "status", Str("done"));
    PrintableFields(task["status" := Str("done")], "completed_by", Str(node));
  }

  lemma PrintableExport(source: map<string, Json>)
    requires Printable(Obj(source))
    ensures Printable(Obj(ExportedTask(source)))
  {
    var status := ExportedTask(source)["status"];
    PrintableFields(source, "status", status);
    PrintableFields(source["status" := status], "exported_from", Str("hermes-internal"));
  }

  // ---- whole runs ----

  /** What the callers guarantee: verified payloads and exported tasks hold no NaN or infinity,
      and generated ids are not empty. */
  predicate Ready(step: Step) {
    match step
    case TaskStep(payload, _, _, k) => Printable(Obj(payload)) && k.freshTaskId != ""
    case ExportStep(source, _, k) => Printable(Obj(source)) && k.freshTaskId != ""
    case _ => true
  }

  function EventRow(e: Event): Option<Json> {
    if Printable(RowOf(e)) then Some(RowOf(e)) else None
  }

  function StoredRow(raw: map<string, Json>, node: string, action: Json, sig: string, k: Stamps): Option<Json> {
    match Normalized(raw, k.freshTaskId, k.stored)
    case None => None
    case Some(saved) => EventRow(TaskEvent(node, action, saved, sig, k))
  }

  /** The row a request appends while the chain verifies. */
  function StepRow(root: Path, step: Step): Option<Json> {
    match step
    case RelayStep(e, _) => EventRow(e)
    case TaskStep(payload, node, sig, k) =>
      var action := ActionOf(payload);
      if !Hashable(action) then None else StoredRow(RequestedTask(payload, node), node, action, sig, k)
    case ExportStep(source, localNode, k) =>
      if !Hashable(Get(source, "status")) then None
      else StoredRow(ExportedTask(source), localNode, Str("export"), "local-export", k)
    case FileStep(requested, text, node, sig, k) =>
      if text.utf8Length > FILE_LIMIT || SafePath(root, requested).None? then None
      else EventRow(FileEvent(node, WrittenName(root, requested), sig, k))
    case _ => None
  }

  /** The row holds no line break. */
  predicate LineSafe(root: Path, step: Step) {
    StepRow(root, step).Some? ==> NoLineBreak(StepRow(root, step).value)
  }

  /** For a relayed event that is a condition on the strings of its envelope. */
  lemma RowUnbrokenIff(e: Event)
    ensures NoLineBreak(RowOf(e)) <==>
            && NoLineBreak(Obj(e.payload)) && NoSeparator(e.node) && NoSeparator(e.op) && NoSeparator(e.sig)
            && NoSeparator(e.id) && NoSeparator(e.ts)
  {
    hide NoSeparator, NoLineBreak;
    RowKeysUnbroken();
    var f := RowOf(e).fields;
    assert f.Keys == {"id", "ts", "node", "op", "payload", "sig"};
    FieldsUnbroken(f);
    TextUnbroken(e.node);
    TextUnbroken(e.op);
    TextUnbroken(e.sig);
    TextUnbroken(e.id);
    TextUnbroken(e.ts);
    assert f["payload"] == Obj(e.payload) && f["node"] == Str(e.node) && f["op"] == Str(e.op);
    assert f["sig"] == Str(e.sig) && f["id"] == Str(e.id) && f["ts"] == Str(e.ts);
  }

  lemma FieldsUnbroken(fields: map<string, Json>)
    ensures NoLineBreak(Obj(fields)) <==> forall k | k in fields :: NoSeparator(k) && NoLineBreak(fields[k])
  {
  }

  lemma TextUnbroken(s: string)
    ensures NoLineBreak(Str(s)) <==> NoSeparator(s)
  {
  }

  lemma RowKeysUnbroken()
    ensures NoSeparator("id") && NoSeparator("ts") && NoSeparator("node") && NoSeparator("op") && NoSeparator("payload") && NoSeparator("sig")
  {
  }

  lemma StoreAndAppendKeepsFaithful(h: string -> string, v: Vault, raw: map<string, Json>, node: string, action: Json, sig: string, k: Stamps)
    requires Faithful(h, v) && k.freshTaskId != "" && Printable(Obj(raw)) && Printable(action)
    requires StoredRow(raw, node, action, sig, k).Some? ==> NoLineBreak(StoredRow(raw, node, action, sig, k).value)
    ensures Faithful(h, StoreAndAppend(h, v, raw, node, action, sig, k).0)
  {
    if Normalized(raw, k.freshTaskId, k.stored).Some? {
      PrintableSaved(raw, node, action, sig, k);
      StoreAndAppendIsOneApplication(h, v, raw, node, action, sig, k);
    }
  }

  lemma StoreAndAppendBreaksChain(h: string -> string, v: Vault, raw: map<string, Json>, node: string, action: Json, sig: string, k: Stamps)
    requires Sound(h, v) && StoredRow(raw, node, action, sig, k).Some? && !NoLineBreak(StoredRow(raw, node, action, sig, k).value)
    ensures var after := StoreAndAppend(h, v, raw, node, action, sig, k).0.disk; !Verifies(h, after.ledger, after.audit)
  {
    var saved := Normalized(raw, k.freshTaskId, k.stored).value;
    UpsertKeepsSound(h, v, raw, k.freshTaskId, k.stored);
    AppendBreaksChain(h, Commit(v, Upsert(v.state, raw, k.freshTaskId, k.stored)), TaskEvent(node, action, saved, sig, k), k.applied);
  }

  lemma FileCallKeepsFaithful(h: string -> string, root: Path, v: Vault, requested: string, text: FileText, node: string, sig: string, k: Stamps)
    requires Faithful(h, v) && LineSafe(root, FileStep(requested, text, node, sig, k))
    ensures Faithful(h, FileCall(h, root, v, requested, text, node, sig, k).0)
  {
    hide Verifies, Append, SafePath, Printable, NoLineBreak, RowOf, PerformAll, Fold, Rows, Readable, FilesMirror, IndexOk, ViewOf;
    var written := WriteText(v, root, requested, text);
    var v1 := Commit(v, written);
    WriteTextKeepsChain(h, v, root, requested, text);
    assert Faithful(h, v1);
    if written.error.None? {
      AppendKeepsFaithful(h, v1, FileEvent(node, WrittenName(root, requested), sig, k), k.applied);
    }
  }

  lemma RequestKeepsFaithful(h: string -> string, root: Path, v: Vault, step: Step)
    requires Faithful(h, v) && Ready(step) && LineSafe(root, step)
    requires step.RelayStep? || step.TaskStep? || step.ExportStep? || step.FileStep?
    ensures Faithful(h, Next(h, root, v, step))
  {
    hide Verifies, Append, StoreAndAppend, RequestedTask, ExportedTask, StoredRow, NoLineBreak;
    match step {
      case RelayStep(e, now) => AppendKeepsFaithful(h, v, e, now);
      case TaskStep(payload, node, sig, k) =>
        PrintableRequest(payload, node);
        if Hashable(ActionOf(payload)) {
          StoreAndAppendKeepsFaithful(h, v, RequestedTask(payload, node), node, ActionOf(payload), sig, k);
        }
      case ExportStep(source, localNode, k) =>
        PrintableExport(source);
        if Hashable(Get(source, "status")) {
          StoreAndAppendKeepsFaithful(h, v, ExportedTask(source), localNode, Str("export"), "local-export", k);
        }
      case FileStep(requested, text, node, sig, k) => FileCallKeepsFaithful(h, root, v, requested, text, node, sig, k);
    }
  }

  /** A request whose row has a line break ends with a broken chain. */
  lemma NextBreaksChain(h: string -> string, root: Path, v: Vault, step: Step)
    requires Faithful(h, v) && !LineSafe(root, step)
    ensures var after := Next(h, root, v, step).disk; !Verifies(h, after.ledger, after.audit)
  {
    hide Verifies, Append, StoreAndAppend, RequestedTask, ExportedTask, StoredRow, NoLineBreak;
    match step {
      case RelayStep(e, now) => AppendBreaksChain(h, v, e, now);
      case TaskStep(payload, node, sig, k) =>
        StoreAndAppendBreaksChain(h, v, RequestedTask(payload, node), node, ActionOf(payload), sig, k);
      case ExportStep(source, localNode, k) =>
        StoreAndAppendBreaksChain(h, v, ExportedTask(source), localNode, Str("export"), "local-export", k);
      case FileStep(requested, text, node, sig, k) =>
        WriteTextKeepsChain(h, v, root, requested, text);
        AppendBreaksChain(h, Commit(v, WriteText(v, root, requested, text)), FileEvent(node, WrittenName(root, requested), sig, k), k.applied);
    }
  }

  /** The vault as its state file brings it back, or with only the verdict noted. */
  lemma SameFaithful(h: string -> string, v: Vault, w: Vault)
    requires Faithful(h, v) && (w == Vault(Load(v.disk), v.disk) || w == Audited(h, v))
    ensures Faithful(h, w)
  {
    hide Verifies, Readable, Rows, Fold, UnstampedIndex, IndexOk, FilesMirror;
  }

  lemma NodeStepKeepsFaithful(h: string -> string, root: Path, v: Vault, step: Step)
    requires Faithful(h, v) && (step.RegisterStep? || step.TouchStep? || step.RevokeStep? || step.AuditStep? || step.RestartStep?)
    ensures Faithful(h, Next(h, root, v, step))
  {
    hide Faithful, PerformAll, MarkAll, Verifies;
    match step {
      case RegisterStep(nodeId, role, ttl, now) => NodeChangeKeepsFaithful(h, v, Register(v.state, nodeId, role, ttl, now));
      case TouchStep(nodeId, now) => NodeChangeKeepsFaithful(h, v, Touch(v.state, nodeId, now));
      case RevokeStep(nodeId, now) => NodeChangeKeepsFaithful(h, v, Revoke(v.state, nodeId, now));
      case AuditStep => SameFaithful(h, v, Audited(h, v));
      case RestartStep(revoked, now) =>
        SameFaithful(h, v, Vault(Load(v.disk), v.disk));
        MarkAllKeepsFaithful(h, Vault(Load(v.disk), v.disk), revoked, now);
    }
  }

  /** Every step whose row has no line break keeps the vault faithful to its ledger. */
  lemma NextKeepsFaithful(h: string -> string, root: Path, v: Vault, step: Step)
    requires Faithful(h, v) && Ready(step) && LineSafe(root, step)
    ensures Faithful(h, Next(h, root, v, step))
  {
    hide *;
    if step.RelayStep? || step.TaskStep? || step.ExportStep? || step.FileStep? {
      RequestKeepsFaithful(h, root, v, step);
    } else {
      NodeStepKeepsFaithful(h, root, v, step);
    }
  }

  lemma {:induction false} RunKeepsFaithful(h: string -> string, root: Path, v: Vault, steps: seq<Step>)
    requires Faithful(h, v) && forall step | step in steps :: Ready(step) && LineSafe(root, step)
    ensures Faithful(h, Run(h, root, v, steps))
  {
    if steps != [] {
      RunKeepsFaithful(h, root, v, steps[..|steps| - 1]);
      NextKeepsFaithful(h, root, Run(h, root, v, steps[..|steps| - 1]), steps[|steps| - 1]);
    }
  }

  const EMPTY_VAULT := Vault(DEFAULT_STATE, EMPTY_DISK)

  lemma EmptyVaultFaithful(h: string -> string)
    ensures Faithful(h, EMPTY_VAULT)
  {
    assert ViewOf(DEFAULT_STATE) == View([], EMPTY_INDEX);
  }

  /** In every crash-free run from an empty vault whose rows hold no line break, the chain verifies, the
      messages are exactly the last 200 the ledger records, the tasks are exactly those of reading the
      ledger from the start (up to the time they were stored), and index and task files mirror each
      other. */
  lemma VaultSaysWhatLedgerSays(h: string -> string, root: Path, steps: seq<Step>)
    requires forall step | step in steps :: Ready(step) && LineSafe(root, step)
    ensures var v := Run(h, root, EMPTY_VAULT, steps);
            && Verifies(h, v.disk.ledger, v.disk.audit)
            && var rows := Rows(v.disk.ledger).value;
               && v.state.messages == Last(MessagesIn(rows), MESSAGE_LIMIT)
               && UnstampedIndex(v.state.tasks) == Fold(rows).tasks
               && BucketSays(Stores(rows), Pending, UnstampedSeq(v.state.tasks.pending))
               && BucketSays(Stores(rows), Processing, UnstampedSeq(v.state.tasks.processing))
               && BucketSays(Stores(rows), Done, UnstampedSeq(v.state.tasks.done))
               && IndexOk(v.state.tasks) && FilesMirror(v.state.tasks, v.disk.dirs)
  {
    EmptyVaultFaithful(h);
    RunKeepsFaithful(h, root, EMPTY_VAULT, steps);
    var rows := Rows(Run(h, root, EMPTY_VAULT, steps).disk.ledger).value;
    MessagesAreLast200(rows);
    TasksAreLatest(rows);
  }

  // ---- the ledger file ----

  /** The row a request appends: none while the chain is broken. */
  function AppendedRow(h: string -> string, root: Path, v: Vault, step: Step): Option<Json> {
    if Verifies(h, v.disk.ledger, v.disk.audit) then StepRow(root, step) else None
  }

  function RowLines(row: Option<Json>): seq<Line> {
    match row
    case None => []
    case Some(r) => WrittenLines(r)
  }

  lemma AppendLedger(h: string -> string, v: Vault, e: Event, now: string)
    ensures var after := Commit(v, Append(h, v, e, now)).disk;
            after.ledger == v.disk.ledger + RowLines(if Verifies(h, v.disk.ledger, v.disk.audit) then EventRow(e) else None)
  {
    hide Verifies, Printable, WrittenLines, Apply, RowOf, AuditEntry;
    if Verifies(h, v.disk.ledger, v.disk.audit) && Printable(RowOf(e)) {
      AppendOutcome(h, v, e, now);
    } else {
      PerformOne(v.disk, SaveState(v.state.(tampered := true)));
    }
  }

  lemma StoreAndAppendLedger(h: string -> string, v: Vault, raw: map<string, Json>, node: string, action: Json, sig: string, k: Stamps)
    requires Verifies(h, v.disk.ledger, v.disk.audit)
    ensures StoreAndAppend(h, v, raw, node, action, sig, k).0.disk.ledger == v.disk.ledger + RowLines(StoredRow(raw, node, action, sig, k))
  {
    hide Verifies, Append, EventRow, TaskEvent, WrittenLines;
    if Normalized(raw, k.freshTaskId, k.stored).Some? {
      var saved := Normalized(raw, k.freshTaskId, k.stored).value;
      UpsertFiles(v.disk, saved, v.state.(tasks := Upserted(v.state.tasks, saved)));
      AppendLedger(h, Commit(v, Upsert(v.state, raw, k.freshTaskId, k.stored)), TaskEvent(node, action, saved, sig, k), k.applied);
    }
  }

  /** Every request appends to the ledger file exactly the lines of its row. */
  lemma NextLedger(h: string -> string, root: Path, v: Vault, step: Step)
    requires step.RelayStep? || step.TaskStep? || step.ExportStep? || step.FileStep?
    ensures Next(h, root, v, step).disk.ledger == v.disk.ledger + RowLines(AppendedRow(h, root, v, step))
  {
    hide Verifies, Append, StoreAndAppend, StoredRow, EventRow, RequestedTask, ExportedTask;
    PerformOne(v.disk, SaveState(v.state.(tampered := true)));
    assert RowLines(None) == [];
    match step {
      case RelayStep(e, now) => AppendLedger(h, v, e, now);
      case TaskStep(payload, node, sig, k) =>
        if Verifies(h, v.disk.ledger, v.disk.audit) {
          StoreAndAppendLedger(h, v, RequestedTask(payload, node), node, ActionOf(payload), sig, k);
        }
      case ExportStep(source, localNode, k) =>
        if Verifies(h, v.disk.ledger, v.disk.audit) {
          StoreAndAppendLedger(h, v, ExportedTask(source), localNode, Str("export"), "local-export", k);
        }
      case FileStep(requested, text, node, sig, k) =>
        WriteTextKeepsChain(h, v, root, requested, text);
        AppendLedger(h, Commit(v, WriteText(v, root, requested, text)), FileEvent(node, WrittenName(root, requested), sig, k), k.applied);
    }
  }

  // ---- the index over all runs ----

  /** Index and task files mirror each other, and the state file holds the index. */
  ghost predicate MirrorOk(v: Vault) {
    Synced(v) && IndexOk(v.state.tasks) && FilesMirror(v.state.tasks, v.disk.dirs)
  }

  lemma SavingKeepsMirror(v: Vault, effect: Effect)
    requires MirrorOk(v) && effect.state.tasks == v.state.tasks && effect.state.messages == v.state.messages
    requires effect.writes == [SaveState(effect.state)] || (effect.writes == [] && effect.state == v.state)
    ensures MirrorOk(Commit(v, effect))
  {
    PerformOne(v.disk, SaveState(effect.state));
  }

  lemma AppendKeepsMirror(h: string -> string, v: Vault, e: Event, now: string)
    requires MirrorOk(v)
    ensures MirrorOk(Commit(v, Append(h, v, e, now)))
  {
    if Verifies(h, v.disk.ledger, v.disk.audit) && Printable(RowOf(e)) {
      AppendOutcome(h, v, e, now);
      ApplyWrites(v.disk, v.state, e, now);
      ApplyView(v.state, e, now);
      if AppliedTask(e, now).Some? {
        UpsertKeepsMirror(v.state.tasks, v.disk.dirs, AppliedTask(e, now).value);
      }
    } else {
      SavingKeepsMirror(v, Append(h, v, e, now));
    }
  }

  lemma StoreAndAppendKeepsMirror(h: string -> string, v: Vault, raw: map<string, Json>, node: string, action: Json, sig: string, k: Stamps)
    requires MirrorOk(v)
    ensures MirrorOk(StoreAndAppend(h, v, raw, node, action, sig, k).0)
  {
    var stored := Normalized(raw, k.freshTaskId, k.stored);
    if stored.Some? {
      var v1 := Commit(v, Upsert(v.state, raw, k.freshTaskId, k.stored));
      UpsertFiles(v.disk, stored.value, v.state.(tasks := Upserted(v.state.tasks, stored.value)));
      UpsertKeepsMirror(v.state.tasks, v.disk.dirs, stored.value);
      AppendKeepsMirror(h, v1, TaskEvent(node, action, stored.value, sig, k), k.applied);
    }
  }

  lemma {:induction false} MarkAllKeepsMirror(v: Vault, revoked: seq<string>, now: string)
    requires MirrorOk(v)
    ensures MirrorOk(MarkAll(v, revoked, now))
  {
    if revoked != [] {
      MarkAllKeepsMirror(v, revoked[..|revoked| - 1], now);
      var before := MarkAll(v, revoked[..|revoked| - 1], now);
      SavingKeepsMirror(before, MarkRevoked(before.state, revoked[|revoked| - 1], now));
    }
  }

  lemma RequestKeepsMirror(h: string -> string, root: Path, v: Vault, step: Step)
    requires MirrorOk(v) && (step.RelayStep? || step.TaskStep? || step.ExportStep? || step.FileStep?)
    ensures MirrorOk(Next(h, root, v, step))
  {
    hide Verifies, Append, StoreAndAppend, RequestedTask, ExportedTask;
    SavingKeepsMirror(v, EnsureClean(h, v));
    match step {
      case RelayStep(e, now) => AppendKeepsMirror(h, v, e, now);
      case TaskStep(payload, node, sig, k) =>
        StoreAndAppendKeepsMirror(h, v, RequestedTask(payload, node), node, ActionOf(payload), sig, k);
      case ExportStep(source, localNode, k) =>
        StoreAndAppendKeepsMirror(h, v, ExportedTask(source), localNode, Str("export"), "local-export", k);
      case FileStep(requested, text, node, sig, k) =>
        WriteTextKeepsChain(h, v, root, requested, text);
        AppendKeepsMirror(h, Commit(v, WriteText(v, root, requested, text)), FileEvent(node, WrittenName(root, requested), sig, k), k.applied);
    }
  }

  lemma NodeStepKeepsMirror(h: string -> string, root: Path, v: Vault, step: Step)
    requires MirrorOk(v) && (step.RegisterStep? || step.TouchStep? || step.RevokeStep? || step.AuditStep? || step.RestartStep?)
    ensures MirrorOk(Next(h, root, v, step))
  {
    hide PerformAll;
    match step {
      case RegisterStep(nodeId, role, ttl, now) => SavingKeepsMirror(v, Register(v.state, nodeId, role, ttl, now));
      case TouchStep(nodeId, now) => SavingKeepsMirror(v, Touch(v.state, nodeId, now));
      case RevokeStep(nodeId, now) => SavingKeepsMirror(v, Revoke(v.state, nodeId, now));
      case AuditStep =>
      case RestartStep(revoked, now) => MarkAllKeepsMirror(Vault(Load(v.disk), v.disk), revoked, now);
    }
  }

  lemma NextKeepsMirror(h: string -> string, root: Path, v: Vault, step: Step)
    requires MirrorOk(v)
    ensures MirrorOk(Next(h, root, v, step))
  {
    hide *;
    if step.RelayStep? || step.TaskStep? || step.ExportStep? || step.FileStep? {
      RequestKeepsMirror(h, root, v, step);
    } else {
      NodeStepKeepsMirror(h, root, v, step);
    }
  }

  /** In every run, also with broken chains, refused events and unprintable tasks: each id is in at
      most one bucket and once, each bucket holds at most 200 tasks of its own status, each id has at
      most one file, and every indexed task's file holds the same record. */
  lemma {:induction false} TaskIndexInvariant(h: string -> string, root: Path, v: Vault, steps: seq<Step>)
    requires MirrorOk(v)
    ensures MirrorOk(Run(h, root, v, steps))
  {
    if steps != [] {
      TaskIndexInvariant(h, root, v, steps[..|steps| - 1]);
      NextKeepsMirror(h, root, Run(h, root, v, steps[..|steps| - 1]), steps[|steps| - 1]);
    }
  }

  // ---- exports with NaN in them ----

  ghost predicate PrintableTasks(s: seq<Task>) {
    forall t | t in s :: Printable(Obj(TaskFields(t)))
  }

  lemma StoredPrintable(b: Bucket, s: seq<Task>, t: Task)
    requires PrintableTasks(s) && Printable(Obj(TaskFields(t)))
    ensures PrintableTasks(StoredIn(b, s, t))
  {
    WithoutFacts(s, t.id);
    forall u | u in StoredIn(b, s, t) ensures u == t || u in s {
      assert u in Without(s, t.id) + [t];
    }
  }

  lemma StoredTaskPrintable(e: Event)
    requires Printable(Obj(e.payload)) && StoredTask(e).Some?
    ensures Printable(Obj(TaskFields(StoredTask(e).value)))
  {
    var raw := TaskPart(e.payload);
    assert Printable(Obj(raw));
    var t := StoredTask(e).value;
    forall f | f in t.extra ensures Printable(t.extra[f]) {
      assert f in raw && raw[f] == t.extra[f];
    }
    PrintableFields(t.extra, "id", Str(t.id));
    PrintableFields(t.extra["id" := Str(t.id)], "status", Str(BucketName(t.status)));
  }

  lemma {:induction false} FoldPrintable(rows: seq<Json>)
    requires forall row | row in rows :: Printable(row)
    ensures PrintableTasks(Fold(rows).tasks.pending)
    ensures PrintableTasks(Fold(rows).tasks.processing)
    ensures PrintableTasks(Fold(rows).tasks.done)
  {
    if rows != [] {
      var front, row := rows[..|rows| - 1], rows[|rows| - 1];
      var e := EventOf(row);
      FoldPrintable(front);
      assert Printable(row);
      assert Printable(Obj(e.payload));
      if StoredTask(e).Some? {
        StoredTaskPrintable(e);
        StoredPrintable(Pending, Fold(front).tasks.pending, StoredTask(e).value);
        StoredPrintable(Processing, Fold(front).tasks.processing, StoredTask(e).value);
        StoredPrintable(Done, Fold(front).tasks.done, StoredTask(e).value);
      }
    }
  }

  lemma StoredLast(b: Bucket, s: seq<Task>, t: Task)
    requires b == t.status
    ensures Unstamped(t) in UnstampedSeq(StoredIn(b, s, t))
  {
    var r := StoredIn(b, s, t);
    assert r[|r| - 1] == t;
    assert UnstampedSeq(r)[|r| - 1] == Unstamped(t);
  }

  /** An exported task always has a valid status. */
  lemma ExportedStatusParses(source: map<string, Json>, freshId: string, now: string)
    ensures Normalized(ExportedTask(source), freshId, now).Some?
  {
    BucketNameParses(Pending);
    BucketNameParses(Processing);
    BucketNameParses(Done);
  }

  lemma PrintableEventIff(node: string, saved: Task, k: Stamps)
    ensures Printable(RowOf(TaskEvent(node, Str("export"), saved, "local-export", k))) <==> Printable(Obj(TaskFields(saved)))
  {
    var e := TaskEvent(node, Str("export"), saved, "local-export", k);
    assert e.payload.Keys == {"action", "task"} && e.payload["task"] == Obj(TaskFields(saved));
    assert Printable(Obj(e.payload)) <==> Printable(Obj(TaskFields(saved)));
    assert RowOf(e).fields["payload"] == Obj(e.payload);
  }

  /** The row that exporting `source` appends. */
  function ExportRow(source: map<string, Json>, localNode: string, k: Stamps): Json
    requires Normalized(ExportedTask(source), k.freshTaskId, k.stored).Some?
  {
    RowOf(TaskEvent(localNode, Str("export"), Normalized(ExportedTask(source), k.freshTaskId, k.stored).value, "local-export", k))
  }

  /** An export is recorded exactly when the status of the local task is neither a list nor an object
      and the stored task is printable, and then leaves the vault faithful exactly when its row holds
      no line break.  With another status nothing changes.  When the task is not printable it is stored
      but its event is not appended, the reply is an uncaught error, and the index holds a task the
      ledger does not. */
  lemma ExportRecordedIff(h: string -> string, v: Vault, source: map<string, Json>, localNode: string, k: Stamps)
    requires Faithful(h, v) && k.freshTaskId != ""
    ensures Normalized(ExportedTask(source), k.freshTaskId, k.stored).Some?
    ensures var saved := Normalized(ExportedTask(source), k.freshTaskId, k.stored).value;
            var (after, reply) := ExportCall(h, v, source, localNode, k);
            && (reply == Accepted <==> Hashable(Get(source, "status")) && Printable(Obj(TaskFields(saved))))
            && (reply == Accepted ==>
                  && after.disk.ledger == v.disk.ledger + WrittenLines(ExportRow(source, localNode, k))
                  && (Verifies(h, after.disk.ledger, after.disk.audit) <==> NoLineBreak(ExportRow(source, localNode, k)))
                  && (Faithful(h, after) <==> NoLineBreak(ExportRow(source, localNode, k))))
            && (reply != Accepted ==> reply == ServerError && after.disk.ledger == v.disk.ledger)
            && (!Hashable(Get(source, "status")) ==> after == v)
            && (Hashable(Get(source, "status")) && reply != Accepted ==>
                  && after.state.tasks == Upserted(v.state.tasks, saved)
                  && (!Printable(Obj(TaskFields(Unstamped(saved)))) ==> !Faithful(h, after)))
  {
    ExportedStatusParses(source, k.freshTaskId, k.stored);
    hide Verifies, Printable, NoLineBreak, ExportedTask, Upserted, StoreAndAppend, TaskEvent, TaskFields, Normalized, WrittenLines;
    var raw := ExportedTask(source);
    var saved := Normalized(raw, k.freshTaskId, k.stored).value;
    var e := TaskEvent(localNode, Str("export"), saved, "local-export", k);
    PrintableEventIff(localNode, saved, k);
    if Printable(RowOf(e)) {
      ExportAccepted(h, v, raw, localNode, k);
      StoreAndAppendLedger(h, v, raw, localNode, Str("export"), "local-export", k);
    } else {
      ExportRefused(h, v, raw, localNode, k);
    }
  }

  lemma ExportAccepted(h: string -> string, v: Vault, raw: map<string, Json>, node: string, k: Stamps)
    requires Faithful(h, v) && k.freshTaskId != "" && Normalized(raw, k.freshTaskId, k.stored).Some?
    requires Printable(RowOf(TaskEvent(node, Str("export"), Normalized(raw, k.freshTaskId, k.stored).value, "local-export", k)))
    ensures var row := RowOf(TaskEvent(node, Str("export"), Normalized(raw, k.freshTaskId, k.stored).value, "local-export", k));
            var (after, error) := StoreAndAppend(h, v, raw, node, Str("export"), "local-export", k);
            && error.None? && (NoLineBreak(row) ==> Faithful(h, after))
            && (!NoLineBreak(row) ==> !Verifies(h, after.disk.ledger, after.disk.audit))
  {
    hide NoLineBreak, StoreAndAppend, Printable, Verifies, RowOf, TaskEvent, Normalized;
    var row := RowOf(TaskEvent(node, Str("export"), Normalized(raw, k.freshTaskId, k.stored).value, "local-export", k));
    if NoLineBreak(row) {
      StoreAndAppendIsOneApplication(h, v, raw, node, Str("export"), "local-export", k);
    } else {
      StoreAndAppendBreaksChain(h, v, raw, node, Str("export"), "local-export", k);
    }
    ExportAppends(h, v, raw, node, k);
  }

  lemma ExportAppends(h: string -> string, v: Vault, raw: map<string, Json>, node: string, k: Stamps)
    requires Sound(h, v) && k.freshTaskId != "" && Normalized(raw, k.freshTaskId, k.stored).Some?
    requires Printable(RowOf(TaskEvent(node, Str("export"), Normalized(raw, k.freshTaskId, k.stored).value, "local-export", k)))
    ensures StoreAndAppend(h, v, raw, node, Str("export"), "local-export", k).1.None?
  {
    hide Printable, Verifies, RowOf, Readable, IndexOk, FilesMirror, Normalized, TaskFields;
    UpsertKeepsSound(h, v, raw, k.freshTaskId, k.stored);
    TaskEventStores(node, Str("export"), raw, "local-export", k);
  }

  lemma ExportRefused(h: string -> string, v: Vault, raw: map<string, Json>, node: string, k: Stamps)
    requires Faithful(h, v) && Normalized(raw, k.freshTaskId, k.stored).Some?
    requires !Printable(RowOf(TaskEvent(node, Str("export"), Normalized(raw, k.freshTaskId, k.stored).value, "local-export", k)))
    ensures var saved := Normalized(raw, k.freshTaskId, k.stored).value;
            var (after, error) := StoreAndAppend(h, v, raw, node, Str("export"), "local-export", k);
            && error == Some(NotPrintable) && after.disk.ledger == v.disk.ledger
            && after.state.tasks == Upserted(v.state.tasks, saved)
            && (!Printable(Obj(TaskFields(Unstamped(saved)))) ==> !Faithful(h, after))
  {
    var saved := Normalized(raw, k.freshTaskId, k.stored).value;
    var v1 := Commit(v, Upsert(v.state, raw, k.freshTaskId, k.stored));
    UpsertKeepsSound(h, v, raw, k.freshTaskId, k.stored);
    assert PerformAll(v1.disk, []) == v1.disk;
    var rows := Rows(v.disk.ledger).value;
    forall row | row in rows ensures Printable(row) {
      var i :| 0 <= i < |rows| && rows[i] == row;
      assert RowMatches(h, rows[i], AuditRows(v.disk.audit)[i], HashOf(h, rows[..i]));
    }
    FoldPrintable(rows);
    StoredLast(saved.status, v.state.tasks.At(saved.status), saved);
    assert Unstamped(saved) in UnstampedIndex(v1.state.tasks).At(saved.status);
  }
}
