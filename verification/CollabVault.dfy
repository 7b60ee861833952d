/** The vault object: its methods change the state and the files step by step. */
module CollabVaults {
  import opened Text
  import opened Json
  import opened Results
  import opened Chain
  import opened Tasks
  import opened Paths
  import opened Vault
  import opened Handlers
  import opened VaultRuns

  lemma RowIds(e: Event)
    ensures RowOf(e).Obj? && Get(RowOf(e).fields, "id") == Str(e.id) && Get(RowOf(e).fields, "ts") == Str(e.ts)
  {
  }

  class CollabVault {
    const hash: string -> string
    const root: Path
    var state: State
    var disk: Disk

    ghost function Model(): Vault
      reads this
    {
      Vault(state, disk)
    }

    /** Opening the vault on existing files. */
    constructor (hash: string -> string, root: Path, files: Disk)
      ensures this.hash == hash && this.root == root
      ensures Model() == Vault(Load(files), files)
    {
      this.hash, this.root, disk, state := hash, root, files, Load(files);
    }

    method Put(w: Write)
      modifies this`disk
      ensures disk == Perform(old(disk), w)
    {
      disk := Perform(disk, w);
    }

    method SaveState()
      modifies this`disk
      ensures disk == old(disk).(state := Some(state))
    {
      Put(Write.SaveState(state));
    }

    // ---- nodes ----

    method RegisterNode(nodeId: string, role: string, ttl: int, now: string) returns (error: Option<VaultError>)
      modifies this
      ensures Model() == Commit(old(Model()), Register(old(state), nodeId, role, ttl, now))
      ensures error == Register(old(state), nodeId, role, ttl, now).error
    {
      ghost var effect := Register(state, nodeId, role, ttl, now);
      PerformOne(disk, Write.SaveState(effect.state));
      if nodeId in state.nodes && state.nodes[nodeId].standing == Revoked {
        return Some(NodeRevoked);
      }
      var joinedAt := Some(now);
      if nodeId in state.nodes {
        joinedAt := state.nodes[nodeId].joinedAt;
      }
      state := state.(nodes := state.nodes[nodeId := Node(Active, joinedAt, Some(now), role, ttl)]);
      SaveState();
      error := None;
    }

    method TouchNode(nodeId: string, now: string)
      modifies this
      ensures Model() == Commit(old(Model()), Touch(old(state), nodeId, now))
    {
      PerformOne(disk, Write.SaveState(Touch(state, nodeId, now).state));
      if nodeId in state.nodes {
        state := state.(nodes := state.nodes[nodeId := state.nodes[nodeId].(lastSeen := Some(now))]);
        SaveState();
      }
    }

    method MarkNodeRevoked(nodeId: string, now: string)
      modifies this
      ensures Model() == Commit(old(Model()), MarkRevoked(old(state), nodeId, now))
    {
      PerformOne(disk, Write.SaveState(MarkRevoked(state, nodeId, now).state));
      var node := Node(Revoked, None, None, "collab", 0);
      if nodeId in state.nodes {
        node := state.nodes[nodeId];
      }
      node := node.(standing := Revoked);
      if node.lastSeen.None? || node.lastSeen.value == "" {
        node := node.(lastSeen := Some(now));
      }
      state := state.(nodes := state.nodes[nodeId := node]);
      SaveState();
    }

    method RevokeNode(nodeId: string, now: string) returns (found: bool)
      modifies this
      ensures Model() == Commit(old(Model()), Revoke(old(state), nodeId, now))
      ensures found == (nodeId in old(state).nodes)
    {
      PerformOne(disk, Write.SaveState(Revoke(state, nodeId, now).state));
      if nodeId !in state.nodes {
        return false;
      }
      state := state.(nodes := state.nodes[nodeId := state.nodes[nodeId].(standing := Revoked, lastSeen := Some(now))]);
      SaveState();
      found := true;
    }

    // ---- the chain ----

    /** `_audit_lines`. */
    method AuditLines() returns (rows: seq<Json>)
      ensures rows == AuditRows(disk.audit)
    {
      rows := [];
      for i := 0 to |disk.audit|
        invariant Readable(disk.audit[..i]) && Rows(disk.audit[..i]) == Some(rows)
      {
        var line := disk.audit[i];
        assert disk.audit[..i + 1] == disk.audit[..i] + [line];
        RowsAppend(disk.audit[..i], line);
        ReadableAppend(disk.audit[..i], line);
        if line.Garbage? || (line.Value? && !line.v.Obj?) {
          assert line in disk.audit && !Readable(disk.audit);
          return [];
        }
        if line.Value? {
          rows := rows + [line.v];
        }
      }
      assert disk.audit[..|disk.audit|] == disk.audit;
    }

    /** The rows of the ledger file, `None` when a line does not parse. */
    method LedgerRows() returns (rows: Option<seq<Json>>)
      ensures rows == Rows(disk.ledger)
    {
      var read: seq<Json> := [];
      for i := 0 to |disk.ledger|
        invariant Rows(disk.ledger[..i]) == Some(read)
      {
        var line := disk.ledger[i];
        assert disk.ledger[..i + 1] == disk.ledger[..i] + [line];
        RowsAppend(disk.ledger[..i], line);
        if line.Garbage? {
          GarbageSpoils(disk.ledger, i);
          return None;
        }
        if line.Value? {
          read := read + [line.v];
        }
      }
      assert disk.ledger[..|disk.ledger|] == disk.ledger;
      rows := Some(read);
    }

    method VerifyAuditChain() returns (ok: bool)
      ensures ok == Verifies(hash, disk.ledger, disk.audit)
    {
      var read := LedgerRows();
      if read.None? {
        return false;
      }
      var rows := read.value;
      var audits := AuditLines();
      if |rows| != |audits| {
        return false;
      }
      ok := CheckLinks(rows, audits);
    }

    /** The loop of `verify_audit_chain`. */
    method CheckLinks(rows: seq<Json>, audits: seq<Json>) returns (ok: bool)
      requires |rows| == |audits|
      ensures ok == Linked(hash, rows, audits)
    {
      var previous := "";
      for i := 0 to |rows|
        invariant previous == HashOf(hash, rows[..i])
        invariant LinkedUpTo(hash, rows, audits, i)
      {
        var current := CheckRow(rows[i], audits[i], previous);
        LinkedStep(hash, rows, audits, i);
        if current.None? {
          return false;
        }
        previous := current.value;
      }
      LinkedWhole(hash, rows, audits);
      ok := true;
    }

    /** One round of the loop of `verify_audit_chain`: the next `previous`, or `None` to give up. */
    method CheckRow(row: Json, audit: Json, previous: string) returns (current: Option<string>)
      ensures current.Some? <==> RowMatches(hash, row, audit, previous)
      ensures current.Some? ==> row.Obj? && current.value == LinkHash(hash, Get(row.fields, "id"), previous, EntryHash(hash, row))
    {
      if !row.Obj? || !audit.Obj? || Get(audit.fields, "ledger_id") != Get(row.fields, "id") {
        return None;
      }
      var claimed := if "prev_hash" in audit.fields then audit.fields["prev_hash"] else Str("");
      if claimed != Str(previous) {
        return None;
      }
      if !Printable(row) {
        return None;
      }
      var entryHash := hash(Canonical(row));
      if Get(audit.fields, "entry_hash") != Str(entryHash) {
        return None;
      }
      if "ledger_id" !in audit.fields {
        return None;
      }
      var link := hash(Canonical(Obj(map["ledger_id" := audit.fields["ledger_id"], "prev_hash" := Str(previous), "entry_hash" := Str(entryHash)])));
      if Get(audit.fields, "hash") != Str(link) {
        return None;
      }
      current := Some(link);
    }

    method EnsureAuditClean() returns (error: Option<VaultError>)
      modifies this
      ensures Model() == Commit(old(Model()), EnsureClean(hash, old(Model())))
      ensures error == EnsureClean(hash, old(Model())).error
    {
      PerformOne(disk, Write.SaveState(state.(tampered := true)));
      var ok := VerifyAuditChain();
      if ok {
        return None;
      }
      state := state.(tampered := true);
      SaveState();
      error := Some(AuditTampered);
    }

    /** `audit_status` notes in memory whether the chain verifies. */
    method NoteAudit()
      modifies this`state
      ensures state == old(state).(tampered := !Verifies(hash, disk.ledger, disk.audit))
    {
      var ok := VerifyAuditChain();
      state := state.(tampered := !ok);
    }

    // ---- tasks ----

    method UpsertTask(raw: map<string, Json>, freshId: string, now: string) returns (saved: Result<Task, VaultError>)
      modifies this
      ensures Model() == Commit(old(Model()), Upsert(old(state), raw, freshId, now))
      ensures saved == match Normalized(raw, freshId, now) case Some(t) => Ok(t) case None => Err(InvalidStatus)
    {
      var normalized := Normalized(raw, freshId, now);
      if normalized.None? {
        return Err(InvalidStatus);
      }
      var task := normalized.value;
      var tasks := state.tasks;
      for i := 0 to 3
        invariant forall k | 0 <= k < 3 ::
                    tasks.At(BUCKETS[k]) == if k < i then Without(state.tasks.At(BUCKETS[k]), task.id) else state.tasks.At(BUCKETS[k])
      {
        tasks := tasks.With(BUCKETS[i], Without(tasks.At(BUCKETS[i]), task.id));
      }
      assert tasks.At(BUCKETS[0]) == tasks.pending && tasks.At(BUCKETS[1]) == tasks.processing && tasks.At(BUCKETS[2]) == tasks.done;
      tasks := tasks.With(task.status, tasks.At(task.status) + [task]);
      tasks := tasks.With(task.status, Last(tasks.At(task.status), BUCKET_LIMIT));
      state := state.(tasks := tasks);
      FileTask(task);
      SaveState();
      assert state.tasks == Upserted(old(state).tasks, task);
      UpsertFiles(old(disk), task, state);
      saved := Ok(task);
    }

    /** Write the task's file and unlink it in the other two directories. */
    method FileTask(task: Task)
      modifies this`disk
      ensures disk == old(disk).(dirs := Filed(old(disk).dirs, task))
    {
      Put(TaskFile(task));
      for i := 0 to 3
        invariant disk == old(disk).(dirs := disk.dirs)
        invariant forall k | 0 <= k < 3 ::
                    disk.dirs.At(BUCKETS[k]) ==
                    if k < i || BUCKETS[k] == task.status then FiledIn(BUCKETS[k], old(disk).dirs.At(BUCKETS[k]), task)
                    else old(disk).dirs.At(BUCKETS[k])
      {
        if BUCKETS[i] != task.status {
          Put(DropTaskFile(BUCKETS[i], task.id));
        }
      }
      assert disk.dirs.At(BUCKETS[0]) == disk.dirs.pending && disk.dirs.At(BUCKETS[1]) == disk.dirs.processing
             && disk.dirs.At(BUCKETS[2]) == disk.dirs.done;
    }

    // ---- events ----

    method ApplyEvent(e: Event, now: string) returns (error: Option<VaultError>)
      modifies this
      ensures Model() == Commit(old(Model()), Apply(old(state), e, now))
      ensures error == Apply(old(state), e, now).error
    {
      error := None;
      if e.op in {"message", "broadcast"} {
        var messages := state.messages + [MessageOf(e)];
        state := state.(messages := Last(messages, MESSAGE_LIMIT));
      } else if e.op == "task" {
        var task := TaskPart(e.payload);
        if Truthy(Get(task, "id")) {
          var saved := UpsertTask(task, "", now);
          if saved.Err? {
            error := Some(saved.error);
          }
        }
      } else if e.op == "join" {
        var joined := Get(e.payload, "node_id");
        if joined.Str? && joined.s != "" {
          var role := if "role" in e.payload then PyText(e.payload["role"]) else "collab";
          error := RegisterNode(joined.s, role, 0, now);
        }
      }
    }

    method AppendEvent(e: Event, now: string) returns (error: Option<VaultError>)
      modifies this
      ensures Model() == Commit(old(Model()), Append(hash, old(Model()), e, now))
      ensures error == Append(hash, old(Model()), e, now).error
    {
      hide Printable, AuditEntry, Apply;
      error := EnsureAuditClean();
      if error.Some? {
        return;
      }
      if !Printable(RowOf(e)) {
        return Some(NotPrintable);
      }
      AppendInSteps(hash, Model(), e, now);
      RecordEvent(e);
      error := ApplyEvent(e, now);
      if error.Some? {
        return;
      }
      state := state.(lastSync := Some(e.ts), tampered := false);
      SaveState();
    }

    /** Append the ledger row, then the audit row that links to the last audit hash. */
    method RecordEvent(e: Event)
      modifies this`disk
      ensures disk == Perform(Perform(old(disk), LedgerLines(WrittenLines(RowOf(e)))), AuditLine(Value(AuditEntry(hash, RowOf(e), old(disk).audit))))
    {
      hide Perform, LinkHash, Canonical, WrittenLines, AuditRows, RowOf;
      RowIds(e);
      var row := RowOf(e);
      var audits := AuditLines();
      var last := if audits == [] then Str("") else if audits[|audits| - 1].Obj? then Get(audits[|audits| - 1].fields, "hash") else Null;
      var previous := match last case Str(s) => s case _ => "";
      var id, entryHash := Str(e.id), hash(Canonical(row));
      var auditRow := Obj(map["ledger_id" := id, "prev_hash" := Str(previous), "entry_hash" := Str(entryHash),
                              "hash" := Str(LinkHash(hash, id, previous, entryHash)), "ts" := Str(e.ts)]);
      assert auditRow == AuditEntry(hash, row, disk.audit);
      Put(LedgerLines(WrittenLines(row)));
      Put(AuditLine(Value(auditRow)));
    }

    // ---- files ----

    method WriteFile(requested: string, text: FileText) returns (written: Result<string, VaultError>)
      modifies this
      ensures Model() == Commit(old(Model()), WriteText(old(Model()), root, requested, text))
      ensures written == match WriteText(old(Model()), root, requested, text).error
                         case None => Ok(WrittenName(root, requested)) case Some(error) => Err(error)
    {
      if text.utf8Length > FILE_LIMIT {
        return Err(InvalidContent);
      }
      var path := SafePath(root, requested);
      if path.None? {
        return Err(ForbiddenPath);
      }
      AcceptedIsPlain(root, requested);
      var relative := path.value[|root|..];
      PerformOne(disk, TextFile(relative, text));
      Put(TextFile(relative, text));
      written := Ok(Join(relative, '/'));
    }
  }

  /** The first `n` rows match. */
  ghost predicate LinkedUpTo(h: string -> string, rows: seq<Json>, audits: seq<Json>, n: nat)
    requires n <= |rows| == |audits|
  {
    forall i | 0 <= i < n :: RowMatches(h, rows[i], audits[i], HashOf(h, rows[..i]))
  }

  lemma LinkedStep(h: string -> string, rows: seq<Json>, audits: seq<Json>, i: nat)
    requires i < |rows| == |audits| && LinkedUpTo(h, rows, audits, i)
    ensures RowMatches(h, rows[i], audits[i], HashOf(h, rows[..i])) ==> LinkedUpTo(h, rows, audits, i + 1)
    ensures !RowMatches(h, rows[i], audits[i], HashOf(h, rows[..i])) ==> !Linked(h, rows, audits)
    ensures rows[i].Obj? ==>
              HashOf(h, rows[..i + 1]) == LinkHash(h, Get(rows[i].fields, "id"), HashOf(h, rows[..i]), EntryHash(h, rows[i]))
  {
    assert rows[..i + 1][..i] == rows[..i];
  }

  lemma LinkedWhole(h: string -> string, rows: seq<Json>, audits: seq<Json>)
    requires |rows| == |audits| && LinkedUpTo(h, rows, audits, |rows|)
    ensures Linked(h, rows, audits)
  {
  }
}
