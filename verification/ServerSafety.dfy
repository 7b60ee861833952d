/** What no run of the server does: every ledger row is authorised, no envelope gives two, and a
    revoked node writes no more. */
module ServerSafety {
  import opened Json
  import opened Results
  import opened Chain
  import opened Signing
  import opened Trust
  import opened Tasks
  import opened Vault
  import opened VaultRuns
  import opened Auth
  import opened Requests
  import opened ServerRuns
  import opened Paths
  import Text
  import opened Decoding

  // ---- the ledger is the log ----

  function LoggedLines(log: seq<Logged>): seq<Line> {
    if log == [] then [] else LoggedLines(log[..|log| - 1]) + WrittenLines(log[|log| - 1].row)
  }

  /** Ledger and audit file are the same. */
  ghost predicate SameChain(v: Vault, w: Vault) {
    v.disk.ledger == w.disk.ledger && v.disk.audit == w.disk.audit
  }

  lemma SavedChain(v: Vault, effect: Effect)
    requires effect.writes == [] || effect.writes == [SaveState(effect.state)]
    ensures SameChain(Commit(v, effect), v)
  {
    PerformOne(v.disk, SaveState(effect.state));
  }

  predicate Quiet(a: AuthRuns.Step) {
    a.Invite? || a.Join? || a.Check? || a.RevokeCall? || a.Restart? || a == AuthRuns.Request(Handlers.AuditStep)
  }

  /** Steps of enrolment write nothing to the chain. */
  lemma QuietChain(h: string -> string, root: Path, s: AuthRuns.History, a: AuthRuns.Step)
    requires Quiet(a)
    ensures SameChain(AuthRuns.Next(h, root, s, a).mesh.vault, s.mesh.vault)
  {
    hide PerformAll, VerifyToken, CheckJoin, CheckInvite, FindCode, Verifies;
    var v := s.mesh.vault;
    match a {
      case Join(nodeId, _, _, _, t) => SavedChain(v, Register(v.state, nodeId, "collab", 86_400, t.text));
      case Check(token, now, text) =>
        if VerifyToken(h, s.mesh, token, now).Some? {
          SavedChain(v, Touch(v.state, VerifyToken(h, s.mesh, token, now).value, text));
        }
      case RevokeCall(n, text) => SavedChain(v, Revoke(v.state, n, text));
      case Restart(readable, text) => RestartChain(s.mesh, readable, text);
      case _ =>
    }
  }

  lemma RestartChain(m: Mesh, readable: bool, text: string)
    ensures SameChain(RestartedMesh(m, readable, text).vault, m.vault)
  {
    var disk := if readable then m.vault.disk else m.vault.disk.(state := None);
    AuthRuns.MarkAllKeepsChain(Vault(Load(disk), disk), SortedNames(m.revoked), text);
  }

  lemma StepLedger(c: Setup, s: Site, step: Step)
    ensures Next(c, s, step).auth.mesh.vault.disk.ledger == s.auth.mesh.vault.disk.ledger + RowLines(AppendedBy(c, s, step))
  {
    hide AuthRuns.Run, AuthRuns.Next, AuthSteps, Call, Handlers.Next, AppendedRow, ChallengesAfter, PendingAfter, LinksAfter, LogAfter, TrustStep;
    assert RowLines(None) == [];
    if Writes(step) {
      CallRun(c, s, step);
      if Call(c, s, step).Some? {
        CallWrites(c, s, step);
        NextLedger(c.hash, c.root, s.auth.mesh.vault, Call(c, s, step).value);
      }
    } else {
      OtherLedger(c, s, step);
    }
  }

  lemma CallWrites(c: Setup, s: Site, step: Step)
    requires Call(c, s, step).Some?
    ensures var call := Call(c, s, step).value; call.RelayStep? || call.TaskStep? || call.ExportStep? || call.FileStep?
  {
    hide Admitted, CheckOf, SignedParts;
  }

  lemma OtherLedger(c: Setup, s: Site, step: Step)
    requires !Writes(step)
    ensures SameChain(Next(c, s, step).auth.mesh.vault, s.auth.mesh.vault) && Call(c, s, step).None?
  {
    hide AuthRuns.Run, AuthRuns.Next, CallSteps, RevokedBy, Admitted, CheckOf, ChallengesAfter, PendingAfter, LinksAfter, LogAfter, TrustStep,
         TrustRuns.Next, RestartedMesh;
    var steps := AuthSteps(c, s, step);
    if steps == [] {
      RunNone(c.hash, c.root, s.auth);
    } else {
      assert steps == [steps[0]] && Quiet(steps[0]);
      RunOne(c.hash, c.root, s.auth, steps[0]);
      QuietChain(c.hash, c.root, s.auth, steps[0]);
    }
  }

  /** In every run the ledger file is exactly the rows of the log, in order. */
  lemma {:induction false} LedgerIsLog(c: Setup, start: real, steps: seq<Step>)
    ensures Run(c, start, steps).auth.mesh.vault.disk.ledger == LoggedLines(Run(c, start, steps).log)
  {
    hide AuthRuns.Run, AuthSteps, AppendedBy, ChallengesAfter, PendingAfter, LinksAfter, TrustStep;
    if steps != [] {
      var s, step := Run(c, start, steps[..|steps| - 1]), steps[|steps| - 1];
      LedgerIsLog(c, start, steps[..|steps| - 1]);
      StepLedger(c, s, step);
      assert s.auth.mesh.vault.disk.ledger + [] == s.auth.mesh.vault.disk.ledger;
      assert LogAfter(c, s, step) != s.log ==> LogAfter(c, s, step)[..|s.log|] == s.log;
    }
  }

  // ---- where the rows of the log come from ----

  /** The row was appended by step `l.at`, in the state before it. */
  ghost predicate CameFrom(c: Setup, start: real, steps: seq<Step>, l: Logged) {
    && l.at < |steps|
    && var s, step := Run(c, start, steps[..l.at]), steps[l.at];
       && AppendedBy(c, s, step) == Some(l.row)
       && l.entry == if step.Export? then None else Some(|s.trust.accepted|)
  }

  ghost predicate LogOk(c: Setup, start: real, steps: seq<Step>) {
    var log := Run(c, start, steps).log;
    && Run(c, start, steps).count == |steps|
    && (forall i | 0 <= i < |log| :: CameFrom(c, start, steps, log[i]))
    && (forall i, j | 0 <= i < j < |log| :: log[i].at < log[j].at)
  }

  lemma CameFromParts(c: Setup, start: real, steps: seq<Step>, l: Logged)
    requires CameFrom(c, start, steps, l)
    ensures l.at < |steps| && AppendedBy(c, Run(c, start, steps[..l.at]), steps[l.at]) == Some(l.row)
  {
    hide Run, AppendedBy;
  }

  lemma CameFromLonger(c: Setup, start: real, steps: seq<Step>, l: Logged)
    requires steps != [] && CameFrom(c, start, steps[..|steps| - 1], l)
    ensures CameFrom(c, start, steps, l)
  {
    hide Run, AppendedBy;
    assert steps[..|steps| - 1][..l.at] == steps[..l.at];
  }

  lemma {:induction false} RunLogOk(c: Setup, start: real, steps: seq<Step>)
    ensures LogOk(c, start, steps)
  {
    hide AuthRuns.Run, AuthSteps, AppendedBy, ChallengesAfter, PendingAfter, LinksAfter, TrustStep, TrustRuns.Next, CameFrom;
    if steps != [] {
      var front, step := steps[..|steps| - 1], steps[|steps| - 1];
      RunLogOk(c, start, front);
      var s, log := Run(c, start, front), Run(c, start, steps).log;
      forall i | 0 <= i < |log| ensures CameFrom(c, start, steps, log[i]) && (i < |s.log| || log[i].at == |front|) {
        if i < |s.log| {
          CameFromLonger(c, start, steps, s.log[i]);
        } else {
          LastCameFrom(c, start, steps);
        }
      }
      BeforeLast(c, start, front);
    }
  }

  lemma LastCameFrom(c: Setup, start: real, steps: seq<Step>)
    requires steps != [] && Run(c, start, steps[..|steps| - 1]).count == |steps| - 1
    requires Run(c, start, steps).log != Run(c, start, steps[..|steps| - 1]).log
    ensures var log := Run(c, start, steps).log; CameFrom(c, start, steps, log[|log| - 1]) && log[|log| - 1].at == |steps| - 1
  {
    hide AuthRuns.Run, AuthSteps, AppendedBy, ChallengesAfter, PendingAfter, LinksAfter, TrustStep, TrustRuns.Next;
  }

  lemma BeforeLast(c: Setup, start: real, steps: seq<Step>)
    requires LogOk(c, start, steps)
    ensures forall l | l in Run(c, start, steps).log :: l.at < |steps|
  {
    hide Run, AppendedBy;
    var log := Run(c, start, steps).log;
    forall l | l in log ensures l.at < |steps| {
      var i :| 0 <= i < |log| && log[i] == l;
      assert CameFrom(c, start, steps, log[i]);
    }
  }

  // ---- what an admitted envelope says ----

  /** An envelope that passes for `n` names n and has every field in its place. */
  lemma PassedEnvelope(c: Config, nonces: seq<Entry>, message: Json, n: string, now: real, saveTime: real)
    requires n != "" && Verify(c, nonces, message, Some(n), now, saveTime).1.Verified?
    ensures Verify(c, nonces, message, Some(n), now, saveTime).1 == Verified(n)
    ensures message.Obj? && Get(message.fields, "node_id") == Str(n)
    ensures Get(message.fields, "op").Str? && Get(message.fields, "sig").Str?
    ensures Get(message.fields, "payload").Obj? && Printable(Get(message.fields, "payload"))
    ensures PayloadClean(c.platform, Get(message.fields, "payload"))
    ensures Get(message.fields, "nonce").Str? && TimestampSeconds(c.platform, Get(message.fields, "ts")).Some?
    ensures var screened := Screen(c.platform, c.meshKey, c.window, message, Some(n), now);
            screened == Fresh(n, Get(message.fields, "nonce").s, TimestampSeconds(c.platform, Get(message.fields, "ts")).value)
  {
    hide PayloadAllowed, SigningMaterial, Kept, RefusedAt, Printable;
    if message.Obj? {
      PayloadRefusedIff(c.platform, Get(message.fields, "payload"));
    }
  }

  /** The stamps of the row a step appends. */
  predicate Stamped(step: Step, row: map<string, Json>) {
    match step
    case Relay(_, _, _, _, k) => Get(row, "id") == Str(k.eventId) && Get(row, "ts") == Str(k.ts)
    case Frame(_, _, _, _, k) => Get(row, "id") == Str(k.eventId) && Get(row, "ts") == Str(k.ts)
    case Task(_, _, _, _, k) => Get(row, "id") == Str(k.eventId) && Get(row, "ts") == Str(k.ts)
    case File(_, _, _, _, k) => Get(row, "id") == Str(k.eventId) && Get(row, "ts") == Str(k.ts)
    case _ => false
  }

  /** The payload of the row is that of the request; for a task its action and the task it asks to store, for
      a file, which must be a write, the path below the root. */
  ghost predicate SaysPayload(c: Setup, step: Step, n: string, payload: map<string, Json>, stated: Json) {
    match step
    case Task(_, _, _, _, k) =>
      exists saved :: TaskRecorded(payload, n, k, saved) && stated == TaskPayload(payload, saved)
    case File(_, _, _, _, _) =>
      && Get(payload, "action") == Str("write") && Get(payload, "path").Str?
      && var path := SafePath(c.root, Get(payload, "path").s);
         && path.Some? && |c.root| <= |path.value|
         && stated == Obj(map["action" := Str("write"), "path" := Str(Text.Join(path.value[|c.root|..], '/'))])
    case _ => stated == Obj(payload)
  }

  function TaskPayload(payload: map<string, Json>, saved: Task): Json {
    Obj(map["action" := if "action" in payload then payload["action"] else Str("create"), "task" := Obj(TaskFields(saved))])
  }

  /** The row says what the envelope of `n` says, in which nothing is refused. */
  ghost predicate Says(c: Setup, step: Step, n: string, row: Json) {
    var message := EnvelopeOf(step).0;
    && row.Obj? && message.Obj? && PayloadClean(c.trust.platform, Get(message.fields, "payload"))
    && Get(row.fields, "node") == Str(n) && Get(message.fields, "node_id") == Str(n)
    && Get(row.fields, "op") == Get(message.fields, "op")
    && Get(row.fields, "sig") == Get(message.fields, "sig")
    && Get(message.fields, "payload").Obj? && Stamped(step, row.fields)
    && SaysPayload(c, step, n, Get(message.fields, "payload").fields, Get(row.fields, "payload"))
  }

  lemma SaysNode(c: Setup, step: Step, n: string, row: Json)
    requires Says(c, step, n, row)
    ensures row.Obj? && Get(row.fields, "node") == Str(n)
  {
  }

  /** Waiting requests and links are pinned to named nodes. */
  ghost predicate PinsNamed(s: Site) {
    && (forall request | request in s.pending :: s.pending[request].node != "")
    && (forall link | link in s.links :: s.links[link] != "")
  }

  lemma SignerNamed(c: Setup, s: Site, step: Step)
    requires PinsNamed(s) && Signer(c, s, step).Some?
    ensures Signer(c, s, step).value != ""
  {
    hide VerifyToken;
  }

  /** What the envelope and the call of an admitted step say. */
  lemma SignedCall(c: Setup, s: Site, step: Step)
    requires PinsNamed(s) && Call(c, s, step).Some? && !step.Export?
    ensures Admitted(c, s, step) && Signer(c, s, step).Some?
    ensures var n, message := Signer(c, s, step).value, EnvelopeOf(step).0;
            && n != "" && message.Obj? && Get(message.fields, "node_id") == Str(n)
            && Get(message.fields, "op").Str? && Get(message.fields, "sig").Str? && Get(message.fields, "payload").Obj?
            && PayloadClean(c.trust.platform, Get(message.fields, "payload"))
            && SignedParts(CheckOf(c, s, step).1.nodeId, message) ==
               Signed(n, Get(message.fields, "op").s, Get(message.fields, "payload").fields, Get(message.fields, "sig").s)
  {
    hide Verify, Screen, VerifyToken, Handlers.RequestedTask, PayloadClean;
    var (message, now, saveTime) := EnvelopeOf(step);
    var n := Signer(c, s, step).value;
    SignerNamed(c, s, step);
    PassedEnvelope(c.trust, s.trust.nonces, message, n, now, saveTime);
    hide Signer;
  }

  lemma EventSays(e: Event)
    ensures RowOf(e).Obj?
    ensures var f := RowOf(e).fields;
            && Get(f, "node") == Str(e.node) && Get(f, "op") == Str(e.op) && Get(f, "sig") == Str(e.sig)
            && Get(f, "payload") == Obj(e.payload) && Get(f, "id") == Str(e.id) && Get(f, "ts") == Str(e.ts)
  {
  }

  lemma TaskSays(c: Setup, step: Step, n: string, payload: map<string, Json>)
    requires step.Task? && Normalized(Handlers.RequestedTask(payload, n), step.k.freshTaskId, step.k.stored).Some?
    ensures var saved := Normalized(Handlers.RequestedTask(payload, n), step.k.freshTaskId, step.k.stored).value;
            SaysPayload(c, step, n, payload, Obj(Handlers.TaskEvent(n, Handlers.ActionOf(payload), saved, "", step.k).payload))
  {
    hide Normalized, TaskFields, Handlers.RequestedTask, TaskRecorded;
    var saved := Normalized(Handlers.RequestedTask(payload, n), step.k.freshTaskId, step.k.stored).value;
    Decoding.Requested(payload, n, step.k);
    assert Obj(Handlers.TaskEvent(n, Handlers.ActionOf(payload), saved, "", step.k).payload) == TaskPayload(payload, saved);
  }

  lemma FileSays(c: Setup, step: Step, n: string, payload: map<string, Json>)
    requires step.File? && FileActionOf(payload).Write? && Get(payload, "path").Str?
    requires SafePath(c.root, Get(payload, "path").s).Some?
    ensures SaysPayload(c, step, n, payload,
                        Obj(Handlers.FileEvent(n, Handlers.WrittenName(c.root, Get(payload, "path").s), "", step.k).payload))
  {
    hide SafePath;
    AcceptedIsPlain(c.root, Get(payload, "path").s);
  }

  lemma SignedSays(c: Setup, s: Site, step: Step)
    requires PinsNamed(s) && AppendedBy(c, s, step).Some? && !step.Export?
    ensures Admitted(c, s, step) && Says(c, step, Signer(c, s, step).value, AppendedBy(c, s, step).value)
  {
    hide Verifies, Verify, Normalized, TaskFields, Printable, SafePath, Handlers.RequestedTask, Handlers.ActionOf, Handlers.WrittenName,
         VerifyToken, Screen, Signer, CheckOf, Admitted, SignedParts, RowOf, PayloadClean, SaysPayload, FileActionOf;
    SignedCall(c, s, step);
    var n, message := Signer(c, s, step).value, EnvelopeOf(step).0;
    var op, payload, sig := Get(message.fields, "op").s, Get(message.fields, "payload").fields, Get(message.fields, "sig").s;
    match step {
      case Relay(_, _, _, _, k) =>
        EventSays(SignedEvent(Signed(n, op, payload, sig), k));
        PlainSays(c, step, n, payload);
      case Frame(_, _, _, _, k) =>
        EventSays(SignedEvent(Signed(n, op, payload, sig), k));
        PlainSays(c, step, n, payload);
      case Task(_, _, _, _, k) =>
        EventSays(Handlers.TaskEvent(n, Handlers.ActionOf(payload), Normalized(Handlers.RequestedTask(payload, n), k.freshTaskId, k.stored).value, sig, k));
        TaskSays(c, step, n, payload);
      case File(_, _, _, _, k) =>
        BlankRefused(c.root);
        WriteFields(payload);
        EventSays(Handlers.FileEvent(n, Handlers.WrittenName(c.root, Get(payload, "path").s), sig, k));
        FileSays(c, step, n, payload);
      case _ =>
    }
  }

  lemma WriteFields(payload: map<string, Json>)
    requires FileActionOf(payload).Write?
    ensures Get(payload, "action") == Str("write") && FileActionOf(payload).path == Get(payload, "path")
  {
  }

  lemma PlainSays(c: Setup, step: Step, n: string, payload: map<string, Json>)
    requires !step.Task? && !step.File?
    ensures SaysPayload(c, step, n, payload, Obj(payload))
  {
  }

  lemma BlankRefused(root: Path)
    ensures SafePath(root, "").None?
  {
  }

  // ---- waiting requests and links ----

  /** Step `at` checked a token that authenticated as `n`, and kept n for a request or a link. */
  ghost predicate Pinned(c: Setup, start: real, steps: seq<Step>, at: nat, n: string) {
    && at < |steps| && n != ""
    && match steps[at]
       case Arrive(_, bearer, now, _) => VerifyToken(c.hash, Run(c, start, steps[..at]).auth.mesh, bearer, now) == Some(n)
       case OpenLink(_, token, now, _) => VerifyToken(c.hash, Run(c, start, steps[..at]).auth.mesh, token, now) == Some(n)
       case _ => false
  }

  ghost predicate RequestOrigin(c: Setup, start: real, steps: seq<Step>, request: nat, w: Waiting) {
    Pinned(c, start, steps, request, w.node) && steps[request].Arrive? && steps[request].api == w.api
  }

  ghost predicate LinkOrigin(c: Setup, start: real, steps: seq<Step>, link: nat, n: string) {
    Pinned(c, start, steps, link, n) && steps[link].OpenLink?
  }

  lemma PinnedPrefix(c: Setup, start: real, steps: seq<Step>, k: nat, at: nat, n: string)
    requires k <= |steps|
    ensures Pinned(c, start, steps[..k], at, n) <==> at < k && Pinned(c, start, steps, at, n)
  {
    hide Run, VerifyToken;
    if at < k {
      assert steps[..k][..at] == steps[..at];
    }
  }

  /** The step checked a token that authenticated as n. */
  predicate Pins(c: Setup, s: Site, step: Step, n: string) {
    n != "" &&
    match step
    case Arrive(_, bearer, now, _) => VerifyToken(c.hash, s.auth.mesh, bearer, now) == Some(n)
    case OpenLink(_, token, now, _) => VerifyToken(c.hash, s.auth.mesh, token, now) == Some(n)
    case _ => false
  }

  lemma NextPending(c: Setup, s: Site, step: Step, request: nat)
    requires request in PendingAfter(c, s, step)
    ensures var w := PendingAfter(c, s, step)[request];
            || (request in s.pending && w == s.pending[request])
            || (step.Arrive? && request == s.count && w.api == step.api && Pins(c, s, step, w.node))
  {
    hide VerifyToken, TokenChecked;
  }

  lemma NextLinks(c: Setup, s: Site, step: Step, link: nat)
    requires link in LinksAfter(c, s, step)
    ensures || (link in s.links && LinksAfter(c, s, step)[link] == s.links[link])
            || (step.OpenLink? && link == s.count && Pins(c, s, step, LinksAfter(c, s, step)[link]))
  {
    hide VerifyToken, TokenChecked, Verify;
  }

  ghost predicate PinsOk(c: Setup, start: real, steps: seq<Step>) {
    var s := Run(c, start, steps);
    && (forall request | request in s.pending :: RequestOrigin(c, start, steps, request, s.pending[request]))
    && (forall link | link in s.links :: LinkOrigin(c, start, steps, link, s.links[link]))
  }

  lemma OriginLonger(c: Setup, start: real, steps: seq<Step>, at: nat, n: string)
    requires steps != []
    ensures Pinned(c, start, steps[..|steps| - 1], at, n) ==> Pinned(c, start, steps, at, n) && at < |steps| - 1
    ensures at == |steps| - 1 && Pins(c, Run(c, start, steps[..at]), steps[at], n) ==> Pinned(c, start, steps, at, n)
  {
    hide Run, VerifyToken;
    PinnedPrefix(c, start, steps, |steps| - 1, at, n);
  }

  lemma NextPinsOk(c: Setup, start: real, steps: seq<Step>)
    requires steps != [] && PinsOk(c, start, steps[..|steps| - 1]) && Run(c, start, steps[..|steps| - 1]).count == |steps| - 1
    ensures PinsOk(c, start, steps)
  {
    hide Run, Next, Pinned, Pins, PendingAfter, LinksAfter;
    var front, step := steps[..|steps| - 1], steps[|steps| - 1];
    var s, after := Run(c, start, front), Run(c, start, steps);
    RunStep(c, start, steps);
    forall request | request in after.pending ensures RequestOrigin(c, start, steps, request, after.pending[request]) {
      NextPending(c, s, step, request);
      OriginLonger(c, start, steps, request, after.pending[request].node);
    }
    forall link | link in after.links ensures LinkOrigin(c, start, steps, link, after.links[link]) {
      NextLinks(c, s, step, link);
      OriginLonger(c, start, steps, link, after.links[link]);
    }
  }

  /** In every run each waiting request and each open link goes back to the step that checked its
      token, which authenticated as the node the request or link is pinned to. */
  lemma {:induction false} PinsHaveOrigin(c: Setup, start: real, steps: seq<Step>)
    ensures PinsOk(c, start, steps) && PinsNamed(Run(c, start, steps))
  {
    hide Next, Pinned;
    if steps == [] {
      assert Run(c, start, steps) == Start(start);
    } else {
      PinsHaveOrigin(c, start, steps[..|steps| - 1]);
      RunLogOk(c, start, steps[..|steps| - 1]);
      NextPinsOk(c, start, steps);
      OriginsNamed(c, start, steps);
    }
  }

  lemma OriginsNamed(c: Setup, start: real, steps: seq<Step>)
    requires PinsOk(c, start, steps)
    ensures PinsNamed(Run(c, start, steps))
  {
    hide Run, VerifyToken;
  }

  lemma RunStep(c: Setup, start: real, steps: seq<Step>)
    requires steps != []
    ensures var s, step := Run(c, start, steps[..|steps| - 1]), steps[|steps| - 1];
            && Run(c, start, steps) == Next(c, s, step)
            && Run(c, start, steps).pending == PendingAfter(c, s, step)
            && Run(c, start, steps).links == LinksAfter(c, s, step)
  {
    hide PendingAfter, LinksAfter, AuthSteps, AuthRuns.Run, TrustStep, LogAfter, ChallengesAfter;
  }

  // ---- every row is authorised ----

  /** A token authenticated as `n` before step `at` checked its envelope: when the headers of the
      request came, or at the handshake of the link. */
  ghost predicate TokenStood(c: Setup, start: real, steps: seq<Step>, at: nat, n: string)
    requires at < |steps|
  {
    if steps[at].Frame? then steps[at].link < at && LinkOrigin(c, start, steps, steps[at].link, n)
    else
      && ApiOf(steps[at]).Some? && steps[at].request < at
      && RequestOrigin(c, start, steps, steps[at].request, Waiting(ApiOf(steps[at]).value, n))
  }

  /** The envelope of the step verified for `n` against the nonces of that time. */
  ghost predicate EnvelopeStood(c: Setup, start: real, steps: seq<Step>, at: nat, n: string)
    requires at < |steps|
  {
    var (message, now, saveTime) := EnvelopeOf(steps[at]);
    Verify(c.trust, Run(c, start, steps[..at]).trust.nonces, message, Some(n), now, saveTime).1 == Verified(n)
  }

  ghost predicate Authorised(c: Setup, start: real, steps: seq<Step>, l: Logged) {
    && l.at < |steps|
    && (steps[l.at].Export?
        || exists n :: n != "" && TokenStood(c, start, steps, l.at, n) && EnvelopeStood(c, start, steps, l.at, n) && Says(c, steps[l.at], n, l.row))
  }

  /** What an admitted step that writes was pinned by. */
  lemma AdmittedStood(c: Setup, start: real, steps: seq<Step>, at: nat)
    requires at < |steps| && Writes(steps[at]) && Admitted(c, Run(c, start, steps[..at]), steps[at])
    requires PinsOk(c, start, steps[..at])
    ensures TokenStood(c, start, steps, at, Signer(c, Run(c, start, steps[..at]), steps[at]).value)
  {
    hide Run, Pinned, CheckOf;
    var s, step := Run(c, start, steps[..at]), steps[at];
    var n := Signer(c, s, step).value;
    if step.Frame? {
      PinnedPrefix(c, start, steps, at, step.link, n);
    } else {
      PinnedPrefix(c, start, steps, at, step.request, n);
      assert s.pending[step.request] == Waiting(ApiOf(step).value, n);
    }
  }

  lemma RowAuthorised(c: Setup, start: real, steps: seq<Step>, l: Logged)
    requires CameFrom(c, start, steps, l)
    ensures Authorised(c, start, steps, l)
  {
    hide Run, AppendedBy, Says, Signer, Verify, TokenStood;
    var s, step := Run(c, start, steps[..l.at]), steps[l.at];
    if !step.Export? {
      PinsHaveOrigin(c, start, steps[..l.at]);
      SignedSays(c, s, step);
      SignerNamed(c, s, step);
      AppendedWrites(c, s, step);
      AdmittedStood(c, start, steps, l.at);
      var n := Signer(c, s, step).value;
      var (message, now, saveTime) := EnvelopeOf(step);
      PassedEnvelope(c.trust, s.trust.nonces, message, n, now, saveTime);
      assert TokenStood(c, start, steps, l.at, n) && EnvelopeStood(c, start, steps, l.at, n);
    }
  }

  lemma AppendedWrites(c: Setup, s: Site, step: Step)
    requires AppendedBy(c, s, step).Some?
    ensures Writes(step)
  {
    hide Admitted, CheckOf, AppendedRow;
  }

  /** In every run of the server the ledger file is exactly the rows of the log in order, at most one
      for each step, and every row but those of exports was appended by a request or frame whose
      token authenticated as the row's node when the headers of the request came or at the handshake
      of the link, and whose envelope verified for that node when it was checked, for exactly the
      operation, signature and payload the row states. */
  lemma EveryRowIsAuthorised(c: Setup, start: real, steps: seq<Step>)
    ensures var s := Run(c, start, steps);
            && s.auth.mesh.vault.disk.ledger == LoggedLines(s.log)
            && (forall i, j | 0 <= i < j < |s.log| :: s.log[i].at < s.log[j].at)
            && (forall i | 0 <= i < |s.log| :: Authorised(c, start, steps, s.log[i]))
  {
    hide Run, CameFrom, Authorised;
    LedgerIsLog(c, start, steps);
    RunLogOk(c, start, steps);
    var log := Run(c, start, steps).log;
    forall i | 0 <= i < |log| ensures Authorised(c, start, steps, log[i]) {
      assert CameFrom(c, start, steps, log[i]);
      RowAuthorised(c, start, steps, log[i]);
    }
  }
}
