/** The vault over whole runs of the server: it says what the authorised rows of the log say. */
module ServerVault {
  import opened Json
  import opened Results
  import opened Lines
  import opened Chain
  import opened Paths
  import opened Trust
  import opened Tasks
  import opened Vault
  import opened Ledger
  import opened VaultRuns
  import opened VaultSafety
  import opened Auth
  import opened Requests
  import opened ServerRuns
  import opened ServerSafety

  // ---- a step of a run is a step of the vault ----

  /** What a step of enrolment asks of the vault. */
  function VaultStepOf(h: string -> string, s: AuthRuns.History, a: AuthRuns.Step): Option<Handlers.Step> {
    match a
    case Join(n, code, requested, token, t) =>
      if CheckJoin(h, s.mesh, n, code, requested, t).None? then Some(Handlers.RegisterStep(n, "collab", 86_400, t.text)) else None
    case Check(token, now, text) =>
      (match VerifyToken(h, s.mesh, token, now)
       case None => None
       case Some(n) => Some(Handlers.TouchStep(n, text)))
    case Request(request) => Some(request)
    case RevokeCall(n, text) => if n in s.mesh.vault.state.nodes then Some(Handlers.RevokeStep(n, text)) else None
    case Restart(_, text) => Some(Handlers.RestartStep(SortedNames(s.mesh.revoked), text))
    case _ => None
  }

  lemma VaultStepTaken(h: string -> string, root: Path, s: AuthRuns.History, a: AuthRuns.Step)
    requires !a.CutJoin? && !a.CutRevoke? && (a.Restart? ==> a.readable)
    ensures AuthRuns.Next(h, root, s, a).mesh.vault ==
            match VaultStepOf(h, s, a)
            case None => s.mesh.vault
            case Some(step) => Handlers.Next(h, root, s.mesh.vault, step)
  {
    hide AuthRuns.Next, VerifyToken, CheckJoin, CheckInvite, Commit, Register, Touch, Revoke, Handlers.Restarted, FindCode, LiveTokens, UsableCodes,
         TokensRevoked, CertRevoked, Handlers.RelayCall, Handlers.TaskCall, Handlers.ExportCall, Handlers.FileCall, Handlers.Audited;
    match a {
      case Invite(boundTo, ttl, code, now) => AuthRuns.InviteMesh(h, root, s, boundTo, ttl, code, now);
      case Join(n, code, requested, token, t) => AuthRuns.JoinMesh(h, root, s, n, code, requested, token, t);
      case Check(token, now, text) => AuthRuns.CheckMesh(h, root, s, token, now, text);
      case Request(request) => AuthRuns.RequestMesh(h, root, s, request);
      case RevokeCall(n, text) => AuthRuns.RevokeMesh(h, root, s, n, text);
      case Restart(readable, text) => AuthRuns.RestartMesh(h, root, s, readable, text);
    }
  }

  function VaultStep(c: Setup, s: Site, step: Step): Option<Handlers.Step> {
    var steps := AuthSteps(c, s, step);
    if steps == [] then None else VaultStepOf(c.hash, s.auth, steps[0])
  }

  /** Every step of a run is one step of the vault, or none. */
  lemma NextVault(c: Setup, s: Site, step: Step)
    requires step.Restart? ==> step.readable
    ensures Next(c, s, step).auth.mesh.vault ==
            match VaultStep(c, s, step)
            case None => s.auth.mesh.vault
            case Some(asked) => Handlers.Next(c.hash, c.root, s.auth.mesh.vault, asked)
  {
    hide AuthRuns.Run, AuthRuns.Next, Call, RevokedBy, VaultStepOf, Handlers.Next, TrustStep, LogAfter, ChallengesAfter, PendingAfter, LinksAfter;
    var steps := AuthSteps(c, s, step);
    if steps == [] {
      RunNone(c.hash, c.root, s.auth);
    } else {
      assert steps == [steps[0]];
      RunOne(c.hash, c.root, s.auth, steps[0]);
      VaultStepTaken(c.hash, c.root, s.auth, steps[0]);
    }
  }

  /** The row of a step is the row of its vault step, while the chain verifies. */
  lemma RowOfVaultStep(c: Setup, s: Site, step: Step)
    ensures AppendedBy(c, s, step) ==
            match VaultStep(c, s, step)
            case None => None
            case Some(asked) => AppendedRow(c.hash, c.root, s.auth.mesh.vault, asked)
  {
    hide Verifies, RevokedBy, VerifyToken, CheckJoin, Admitted, CheckOf, SignedParts, EventRow, StoredRow;
  }

  // ---- whole runs ----

  /** Restarts read the state file, generated ids are not empty, and exported tasks hold no NaN or
      infinity. */
  predicate Generated(step: Step) {
    match step
    case Restart(readable, _) => readable
    case Task(_, _, _, _, k) => k.freshTaskId != ""
    case Export(source, _, k) => Printable(Obj(source)) && k.freshTaskId != ""
    case _ => true
  }

  /** Verified payloads hold neither, too. */
  lemma VaultStepReady(c: Setup, s: Site, step: Step)
    requires PinsNamed(s) && Generated(step) && VaultStep(c, s, step).Some?
    ensures Ready(VaultStep(c, s, step).value)
  {
    hide RevokedBy, VerifyToken, CheckJoin, Admitted, CheckOf, Printable, Signer, FileActionOf;
    if Admitted(c, s, step) {
      AdmittedPayload(c, s, step);
    }
  }

  lemma AdmittedPayload(c: Setup, s: Site, step: Step)
    requires PinsNamed(s) && Admitted(c, s, step)
    ensures Printable(Obj(SignedParts(CheckOf(c, s, step).1.nodeId, EnvelopeOf(step).0).payload))
  {
    hide Verify, Printable, Signer;
    var (message, now, saveTime) := EnvelopeOf(step);
    SignerNamed(c, s, step);
    PassedEnvelope(c.trust, s.trust.nonces, message, Signer(c, s, step).value, now, saveTime);
  }

  ghost predicate Unbroken(log: seq<Logged>) {
    forall l | l in log :: NoLineBreak(l.row)
  }

  /** The vault is faithful, or its chain is broken. */
  ghost predicate VaultOk(h: string -> string, v: Vault, unbroken: bool) {
    && MirrorOk(v)
    && if unbroken then Faithful(h, v) else !Verifies(h, v.disk.ledger, v.disk.audit)
  }

  lemma VaultStepKeepsOk(h: string -> string, root: Path, v: Vault, asked: Handlers.Step, unbroken: bool)
    requires VaultOk(h, v, unbroken) && Ready(asked)
    ensures var row := AppendedRow(h, root, v, asked);
            VaultOk(h, Handlers.Next(h, root, v, asked), unbroken && (row.None? || NoLineBreak(row.value)))
  {
    hide Handlers.Next, Verifies, Ready, StepRow, NoLineBreak, Readable, Rows, Fold, ViewOf, FilesMirror, IndexOk;
    NextKeepsMirror(h, root, v, asked);
    StepVerifiesIff(h, root, v, asked);
  }

  lemma NextVaultOk(c: Setup, s: Site, step: Step)
    requires PinsNamed(s) && Generated(step) && VaultOk(c.hash, s.auth.mesh.vault, Unbroken(s.log))
    ensures VaultOk(c.hash, Next(c, s, step).auth.mesh.vault, Unbroken(Next(c, s, step).log))
  {
    hide Next, VaultOk, Handlers.Next, AppendedBy, AppendedRow, VaultStep, Unbroken;
    NextVault(c, s, step);
    RowOfVaultStep(c, s, step);
    NextLog(c, s, step);
    if VaultStep(c, s, step).Some? {
      VaultStepReady(c, s, step);
      VaultStepKeepsOk(c.hash, c.root, s.auth.mesh.vault, VaultStep(c, s, step).value, Unbroken(s.log));
    }
  }

  lemma NextLog(c: Setup, s: Site, step: Step)
    ensures var row := AppendedBy(c, s, step);
            Unbroken(Next(c, s, step).log) <==> Unbroken(s.log) && (row.None? || NoLineBreak(row.value))
  {
    hide AuthRuns.Run, AuthSteps, AppendedBy, TrustStep, ChallengesAfter, PendingAfter, LinksAfter, NoLineBreak;
    var log := Next(c, s, step).log;
    assert forall l :: l in s.log ==> l in log by {
      assert s.log <= log;
    }
  }

  lemma {:induction false} RunVaultOk(c: Setup, start: real, steps: seq<Step>)
    requires forall step | step in steps :: Generated(step)
    ensures VaultOk(c.hash, Run(c, start, steps).auth.mesh.vault, Unbroken(Run(c, start, steps).log))
  {
    hide Next, VaultOk, Generated, PinsNamed;
    if steps == [] {
      StartVaultOk(c, start);
    } else {
      var front := steps[..|steps| - 1];
      RunVaultOk(c, start, front);
      PinsHaveOrigin(c, start, front);
      NextVaultOk(c, Run(c, start, front), steps[|steps| - 1]);
    }
  }

  lemma StartVaultOk(c: Setup, start: real)
    ensures VaultOk(c.hash, Start(start).auth.mesh.vault, Unbroken(Start(start).log))
  {
    EmptyVaultFaithful(c.hash);
    assert Start(start).auth.mesh.vault == EMPTY_VAULT;
  }

  // ---- what the vault says ----

  function RowsOf(log: seq<Logged>): seq<Json> {
    seq(|log|, i requires 0 <= i < |log| => log[i].row)
  }

  lemma {:induction false} LoggedRows(log: seq<Logged>)
    requires Unbroken(log)
    ensures Rows(LoggedLines(log)) == Some(RowsOf(log))
  {
    hide WrittenLines, NoLineBreak;
    if log == [] {
      assert RowsOf(log) == [];
    } else {
      var front, last := log[..|log| - 1], log[|log| - 1];
      assert log == front + [last];
      LoggedRows(front);
      RowsAppendWritten(LoggedLines(front), last.row);
      assert RowsOf(log) == RowsOf(front) + [last.row];
    }
  }

  /** In every run of the server whose restarts read the state file, the chain verifies at the end
      exactly when no appended row holds a line break.  Then the ledger reads as the rows of the log,
      the messages are the last 200 of them, the tasks are exactly those that reading them from the
      start gives (up to the time they were stored); and broken or not, index and task files mirror
      each other. */
  lemma VaultSaysWhatLogSays(c: Setup, start: real, steps: seq<Step>)
    requires forall step | step in steps :: Generated(step)
    ensures var s := Run(c, start, steps);
            var v, rows := s.auth.mesh.vault, RowsOf(s.log);
            && (Verifies(c.hash, v.disk.ledger, v.disk.audit) <==> Unbroken(s.log))
            && (Unbroken(s.log) ==>
                  && Rows(v.disk.ledger) == Some(rows)
                  && v.state.messages == Last(MessagesIn(rows), MESSAGE_LIMIT)
                  && UnstampedIndex(v.state.tasks) == Fold(rows).tasks
                  && BucketSays(Stores(rows), Pending, UnstampedSeq(v.state.tasks.pending))
                  && BucketSays(Stores(rows), Processing, UnstampedSeq(v.state.tasks.processing))
                  && BucketSays(Stores(rows), Done, UnstampedSeq(v.state.tasks.done)))
            && IndexOk(v.state.tasks) && FilesMirror(v.state.tasks, v.disk.dirs)
  {
    hide Run, Generated, Unbroken, Verifies, Rows, Fold, MessagesIn, Stores, BucketSays, IndexOk, FilesMirror, RowsOf;
    RunVaultOk(c, start, steps);
    LedgerIsLog(c, start, steps);
    var s := Run(c, start, steps);
    if Unbroken(s.log) {
      LoggedRows(s.log);
      MessagesAreLast200(RowsOf(s.log));
      TasksAreLatest(RowsOf(s.log));
    }
  }
}
