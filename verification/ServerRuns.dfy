/** Whole runs of the server: where every ledger row comes from. */
module ServerRuns {
  import opened Json
  import opened Results
  import opened Signing
  import opened Trust
  import opened Vault
  import opened VaultRuns
  import opened Auth
  import opened Requests
  import opened Paths
  import AuthRuns
  import TrustRuns

  // ---- runs ----

  /** The headers of a signed request, its body, another request, a frame of a link, or a restart.  A
      request is named by the step in which its headers came, a link by the step that opened it. */
  datatype Step =
    | Arrive(api: Api, bearer: string, now: real, text: string)
    | Relay(request: nat, message: Json, now: real, saveTime: real, k: Handlers.Stamps)
    | Task(request: nat, message: Json, now: real, saveTime: real, k: Handlers.Stamps)
    | File(request: nat, message: Json, now: real, saveTime: real, k: Handlers.Stamps)
    // the body is not JSON, or never comes
    | Abandon(request: nat)
    | ReadLedger(bearer: string, message: Json, t: Moment)
    | Export(source: map<string, Json>, localNode: string, k: Handlers.Stamps)
    | OpenLink(claimed: Option<string>, token: string, now: real, text: string)
    | Frame(link: nat, message: Json, now: real, saveTime: real, k: Handlers.Stamps)
    | CloseLink(link: nat)
    | Invite(boundTo: Option<string>, ttl: int, code: string, now: real)
    | Join(nodeId: string, code: string, requested: Requested, token: string, times: Times)
    | Look
    | PrepareRevoke(claimedId: Json, challenge: string, now: real)
    | ConfirmRevoke(confirmation: Challenges.Confirmation, now: real, text: string)
    | Restart(readable: bool, text: string)

  /** A ledger row, the step that appended it, and which accepted envelope it came with, if any. */
  datatype Logged = Logged(row: Json, at: nat, entry: Option<nat>)

  datatype Site = Site(auth: AuthRuns.History, trust: TrustRuns.State, challenges: Challenges.Open,
                       pending: map<nat, Waiting>, links: map<nat, string>, log: seq<Logged>, count: nat)

  function Server(s: Site): ServerState {
    ServerState(s.auth.mesh, s.trust.nonces, s.challenges, s.pending, s.links)
  }

  function Start(start: real): Site {
    Site(AuthRuns.START, TrustRuns.State([], [], start), map[], map[], map[], [], 0)
  }

  /** The handler that a body belongs to. */
  function ApiOf(step: Step): Option<Api> {
    match step
    case Relay(_, _, _, _, _) => Some(RelayApi)
    case Task(_, _, _, _, _) => Some(TaskApi)
    case File(_, _, _, _, _) => Some(FileApi)
    case _ => None
  }

  /** The step is the body of a request that waits for it in that handler. */
  predicate Awaited(s: Site, step: Step) {
    ApiOf(step).Some? && Waits(Server(s), step.request, ApiOf(step).value)
  }

  /** The node whose envelope a step checks. */
  function Signer(c: Setup, s: Site, step: Step): Option<string> {
    if Awaited(s, step) then Some(s.pending[step.request].node)
    else
      match step
      case Frame(link, _, _, _, _) => if link in s.links then Some(s.links[link]) else None
      case ReadLedger(bearer, _, t) =>
        var n := VerifyToken(c.hash, s.auth.mesh, bearer, t.checkedAt);
        if n == Some("") then None else n
      case _ => None
  }

  /** The envelope, and when it is checked and stored. */
  function EnvelopeOf(step: Step): (Json, real, real) {
    match step
    case Relay(_, message, now, saveTime, _) => (message, now, saveTime)
    case Task(_, message, now, saveTime, _) => (message, now, saveTime)
    case File(_, message, now, saveTime, _) => (message, now, saveTime)
    case ReadLedger(_, message, t) => (message, t.verifiedAt, t.savedAt)
    case Frame(_, message, now, saveTime, _) => (message, now, saveTime)
    case _ => (Null, 0.0, 0.0)
  }

  function CheckOf(c: Setup, s: Site, step: Step): (seq<Entry>, Verdict)
    requires Signer(c, s, step).Some?
  {
    var (message, now, saveTime) := EnvelopeOf(step);
    Verify(c.trust, s.trust.nonces, message, Signer(c, s, step), now, saveTime)
  }

  /** The envelope of the step passes every check. */
  predicate Admitted(c: Setup, s: Site, step: Step) {
    Signer(c, s, step).Some? && CheckOf(c, s, step).1.Verified?
  }

  function TrustStep(c: Setup, s: Site, step: Step): Option<TrustRuns.Step> {
    if step.Restart? then Some(TrustRuns.Restart)
    else
      match Signer(c, s, step)
      case None => None
      case Some(n) =>
        var (message, now, saveTime) := EnvelopeOf(step);
        Some(TrustRuns.Check(message, Some(n), now, saveTime))
  }

  /** What the step asks of the vault once it is admitted. */
  function Call(c: Setup, s: Site, step: Step): Option<Handlers.Step> {
    if step.Export? then Some(Handlers.ExportStep(step.source, step.localNode, step.k))
    else if !Admitted(c, s, step) then None
    else
      var p := SignedParts(CheckOf(c, s, step).1.nodeId, EnvelopeOf(step).0);
      match step
      case Relay(_, _, _, _, k) => Some(Handlers.RelayStep(SignedEvent(p, k), k.applied))
      case Frame(_, _, _, _, k) => Some(Handlers.RelayStep(SignedEvent(p, k), k.applied))
      case Task(_, _, _, _, k) => if p.op == "task" then Some(Handlers.TaskStep(p.payload, p.node, p.sig, k)) else None
      case File(_, _, _, _, k) =>
        if p.op != "file_update" || !FileActionOf(p.payload).Write? then None else Some(WriteStep(c, FileActionOf(p.payload), p, k))
      case _ => None
  }

  /** A write whose path or content is not a string goes the way of a blank name. */
  function WriteStep(c: Setup, action: FileAction, p: Signed, k: Handlers.Stamps): Handlers.Step
    requires action.Write?
  {
    if action.path.Str? && action.content.Str? then Handlers.FileStep(action.path.s, WrittenText(c, action.content.s), p.node, p.sig, k)
    else Handlers.FileStep("", WrittenText(c, ""), p.node, p.sig, k)
  }

  function CallSteps(c: Setup, s: Site, step: Step): seq<AuthRuns.Step> {
    match Call(c, s, step)
    case None => []
    case Some(call) => [AuthRuns.Request(call)]
  }

  /** The node a confirmation revokes, once everything matches. */
  function RevokedBy(open: Challenges.Open, r: Challenges.Confirmation, now: real): Option<string> {
    if !r.challenge.Str? || r.challenge.s !in open then None
    else
      var record := open[r.challenge.s];
      if record.expiresAt < now || r.nodeId != Str(record.nodeId) || r.phrase != Str(record.phrase)
         || r.meshPhrase != Str("CONFIRM MESH REVOKE")
      then None else Some(record.nodeId)
  }

  /** What the step does to vault and enrolment, as steps of an enrolment run. */
  function AuthSteps(c: Setup, s: Site, step: Step): seq<AuthRuns.Step> {
    match step
    case Arrive(_, bearer, now, text) => [AuthRuns.Check(bearer, now, text)]
    case ReadLedger(bearer, _, t) => [AuthRuns.Check(bearer, t.checkedAt, t.text)]
    case Abandon(_) => []
    case OpenLink(_, token, now, text) => [AuthRuns.Check(token, now, text)]
    case CloseLink(_) => []
    case Invite(boundTo, ttl, code, now) => [AuthRuns.Invite(boundTo, ttl, code, now)]
    case Join(nodeId, code, requested, token, times) => [AuthRuns.Join(nodeId, code, requested, token, times)]
    case Look => [AuthRuns.Request(Handlers.AuditStep)]
    case PrepareRevoke(nodeId, _, _) => if nodeId.Str? then [AuthRuns.Request(Handlers.AuditStep)] else []
    case ConfirmRevoke(confirmation, now, text) =>
      (match RevokedBy(s.challenges, confirmation, now)
       case None => []
       case Some(n) => [AuthRuns.RevokeCall(n, text)])
    case Restart(readable, text) => [AuthRuns.Restart(readable, text)]
    case _ => CallSteps(c, s, step)
  }

  function ChallengesAfter(c: Setup, s: Site, step: Step): Challenges.Open {
    match step
    case PrepareRevoke(nodeId, challenge, now) => PrepareRequest(c, Server(s), nodeId, challenge, now).0.challenges
    case ConfirmRevoke(confirmation, now, text) => RevokeRequest(Server(s), confirmation, now, text).0.challenges
    case Restart(_, _) => map[]
    case _ => s.challenges
  }

  function PendingAfter(c: Setup, s: Site, step: Step): map<nat, Waiting> {
    match step
    case Arrive(api, bearer, now, text) => Arrived(c, Server(s), s.count, api, bearer, now, text).pending
    case Abandon(request) => s.pending - {request}
    case Restart(_, _) => map[]
    case _ => if Awaited(s, step) then s.pending - {step.request} else s.pending
  }

  function LinksAfter(c: Setup, s: Site, step: Step): map<nat, string> {
    match step
    case OpenLink(claimed, token, now, text) => LinkOpened(c, Server(s), s.count, claimed, token, now, text).links
    case Frame(link, _, _, _, _) =>
      if link in s.links && CheckOf(c, s, step).1.Failed? then s.links - {link} else s.links
    case CloseLink(link) => s.links - {link}
    case Restart(_, _) => map[]
    case _ => s.links
  }

  /** The row a step appends. */
  function AppendedBy(c: Setup, s: Site, step: Step): Option<Json> {
    match Call(c, s, step)
    case None => None
    case Some(call) => AppendedRow(c.hash, c.root, s.auth.mesh.vault, call)
  }

  function LogAfter(c: Setup, s: Site, step: Step): seq<Logged> {
    match AppendedBy(c, s, step)
    case None => s.log
    case Some(row) => s.log + [Logged(row, s.count, if step.Export? then None else Some(|s.trust.accepted|))]
  }

  function Next(c: Setup, s: Site, step: Step): Site {
    Site(AuthRuns.Run(c.hash, c.root, s.auth, AuthSteps(c, s, step)),
          match TrustStep(c, s, step) case None => s.trust case Some(t) => TrustRuns.Next(c.trust, s.trust, t),
          ChallengesAfter(c, s, step), PendingAfter(c, s, step), LinksAfter(c, s, step), LogAfter(c, s, step), s.count + 1)
  }

  function Run(c: Setup, start: real, steps: seq<Step>): Site {
    if steps == [] then Start(start) else Next(c, Run(c, start, steps[..|steps| - 1]), steps[|steps| - 1])
  }

  // ---- a step of a run is a request ----

  /** The effect of the handlers; `id` names a request or link that the step opens. */
  function Effect(c: Setup, s: ServerState, id: nat, step: Step): ServerState {
    match step
    case Arrive(api, bearer, now, text) => Arrived(c, s, id, api, bearer, now, text)
    case Relay(request, message, now, saveTime, k) =>
      if Waits(s, request, RelayApi) then RelayRequest(c, s, request, message, now, saveTime, k).0 else s
    case Task(request, message, now, saveTime, k) =>
      if Waits(s, request, TaskApi) then TaskRequest(c, s, request, message, now, saveTime, k).0 else s
    case File(request, message, now, saveTime, k) =>
      if Waits(s, request, FileApi) then FileRequest(c, s, request, message, now, saveTime, k).0 else s
    case Abandon(request) => s.(pending := s.pending - {request})
    case ReadLedger(bearer, message, t) => LedgerRequest(c, s, bearer, message, t).0
    case Export(source, localNode, k) => ExportRequest(c, s, source, localNode, k).0
    case OpenLink(claimed, token, now, text) => LinkOpened(c, s, id, claimed, token, now, text)
    case Frame(link, message, now, saveTime, k) => if link in s.links then LinkFrame(c, s, link, message, now, saveTime, k) else s
    case CloseLink(link) => s.(links := s.links - {link})
    case Invite(boundTo, ttl, code, now) =>
      if CheckInvite(boundTo, ttl).Some? then s else s.(mesh := Invited(c.hash, s.mesh, boundTo, ttl, code, now))
    case Join(nodeId, code, requested, token, t) =>
      if CheckJoin(c.hash, s.mesh, nodeId, code, requested, t).Some? then s
      else s.(mesh := Joined(c.hash, s.mesh, nodeId, code, requested, token, t))
    case Look => WithVault(s, Handlers.Audited(c.hash, s.mesh.vault))
    case PrepareRevoke(nodeId, challenge, now) => PrepareRequest(c, s, nodeId, challenge, now).0
    case ConfirmRevoke(confirmation, now, text) => RevokeRequest(s, confirmation, now, text).0
    case Restart(readable, text) => ServerRestarted(s, readable, text)
  }

  lemma RunNone(h: string -> string, root: Path, s: AuthRuns.History)
    ensures AuthRuns.Run(h, root, s, []) == s
  {
    hide AuthRuns.Next;
  }

  lemma RunOne(h: string -> string, root: Path, s: AuthRuns.History, a: AuthRuns.Step)
    ensures AuthRuns.Run(h, root, s, [a]) == AuthRuns.Next(h, root, s, a)
  {
    hide AuthRuns.Next;
    AuthRuns.RunOne(h, root, s, a);
  }

  /** The steps that may append a row. */
  predicate Writes(step: Step) {
    step.Export? || step.Frame? || ApiOf(step).Some?
  }

  lemma CallRun(c: Setup, s: Site, step: Step)
    requires Writes(step)
    ensures AuthRuns.Run(c.hash, c.root, s.auth, AuthSteps(c, s, step)) ==
            match Call(c, s, step)
            case None => s.auth
            case Some(call) => s.auth.(mesh := s.auth.mesh.(vault := Handlers.Next(c.hash, c.root, s.auth.mesh.vault, call)))
  {
    hide Call, Handlers.Next, AuthRuns.Next;
    RunNone(c.hash, c.root, s.auth);
    if Call(c, s, step).Some? {
      RunOne(c.hash, c.root, s.auth, AuthRuns.Request(Call(c, s, step).value));
      AuthRuns.RequestMesh(c.hash, c.root, s.auth, Call(c, s, step).value);
    }
  }

  /** The nonces after a step. */
  function NoncesAfter(c: Setup, s: Site, step: Step): seq<Entry> {
    if step.Restart? then Reloaded(s.trust.nonces) else if Signer(c, s, step).Some? then CheckOf(c, s, step).0 else s.trust.nonces
  }

  lemma NextParts(c: Setup, s: Site, step: Step)
    ensures Server(Next(c, s, step)) ==
            ServerState(AuthRuns.Run(c.hash, c.root, s.auth, AuthSteps(c, s, step)).mesh, NoncesAfter(c, s, step),
                        ChallengesAfter(c, s, step), PendingAfter(c, s, step), LinksAfter(c, s, step))
  {
    hide AuthRuns.Run, AuthSteps, ChallengesAfter, PendingAfter, LinksAfter, LogAfter, Screen, Signer, Reloaded;
  }

  /** The gate of a body is what a run checks. */
  lemma ReceiveMatches(c: Setup, s: Site, step: Step)
    requires Awaited(s, step)
    ensures var (message, now, saveTime) := EnvelopeOf(step);
            var (g, verdict) := Received(c, Server(s), step.request, message, now, saveTime);
            && Signer(c, s, step).Some?
            && g == Server(s).(nonces := CheckOf(c, s, step).0, pending := s.pending - {step.request})
            && verdict == CheckOf(c, s, step).1 && (verdict.Verified? <==> Admitted(c, s, step))
  {
    hide Verify;
  }

  lemma BodyParts(c: Setup, s: Site, step: Step)
    requires ApiOf(step).Some?
    ensures ChallengesAfter(c, s, step) == s.challenges && LinksAfter(c, s, step) == s.links
    ensures PendingAfter(c, s, step) == if Awaited(s, step) then s.pending - {step.request} else s.pending
    ensures !Awaited(s, step) ==> Signer(c, s, step).None? && Call(c, s, step).None? && Effect(c, Server(s), s.count, step) == Server(s)
  {
    hide RelayRequest, TaskRequest, FileRequest, LedgerRequest, ExportRequest, PrepareRequest, RevokeRequest, LinkOpened, LinkFrame, Arrived;
  }

  lemma BodyNextIsRequest(c: Setup, s: Site, step: Step)
    requires ApiOf(step).Some?
    ensures Server(Next(c, s, step)) == Effect(c, Server(s), s.count, step)
  {
    hide Next, Signer, CheckOf, Admitted, Received, SignedParts, AuthRuns.Run, AuthSteps, TrustStep, LogAfter, ChallengesAfter, LinksAfter,
         PendingAfter, Handlers.RelayCall, Handlers.TaskCall, WriteRequest, WriteStep, TrustRuns.Next, LinkOpened, LinkFrame, Arrived,
         LedgerRequest, ExportRequest, PrepareRequest, RevokeRequest, Invited, Joined, CheckJoin, RestartedMesh, AuthRuns.Next, VerifyToken,
         TokenChecked, Screen, StepRow;
    NextParts(c, s, step);
    BodyParts(c, s, step);
    CallRun(c, s, step);
    if Awaited(s, step) {
      ReceiveMatches(c, s, step);
      WriteMatches(c);
    }
  }

  /** The gate of a request without a body is what a run checks. */
  lemma LedgerNextIsRequest(c: Setup, s: Site, step: Step)
    requires step.ReadLedger?
    ensures Server(Next(c, s, step)) == Effect(c, Server(s), s.count, step)
  {
    hide Next, Verify, VerifyToken, TokenChecked, AuthRuns.Run, AuthRuns.Next, ChallengesAfter, LinksAfter, PendingAfter, RelayRequest,
         TaskRequest, FileRequest, ExportRequest, PrepareRequest, RevokeRequest, LinkOpened, LinkFrame, Arrived, RestartedMesh, Call;
    NextParts(c, s, step);
    TokenMesh(c, s.auth, step.bearer, step.t.checkedAt, step.t.text);
    LedgerParts(c, s, step);
  }

  lemma LedgerParts(c: Setup, s: Site, step: Step)
    requires step.ReadLedger?
    ensures ChallengesAfter(c, s, step) == s.challenges && LinksAfter(c, s, step) == s.links && PendingAfter(c, s, step) == s.pending
  {
    hide PrepareRequest, RevokeRequest, LinkOpened, LinkFrame, Arrived;
  }

  lemma WriteMatches(c: Setup)
    ensures forall v: Vault, action: FileAction, p: Signed, k: Handlers.Stamps | action.Write? ::
              WriteRequest(c, v, action.path, action.content, p.node, p.sig, k).0 == Handlers.Next(c.hash, c.root, v, WriteStep(c, action, p, k))
  {
    forall v: Vault, action: FileAction, p: Signed, k: Handlers.Stamps | action.Write?
      ensures WriteRequest(c, v, action.path, action.content, p.node, p.sig, k).0 == Handlers.Next(c.hash, c.root, v, WriteStep(c, action, p, k))
    {
      BlankWrite(c, v);
      hide Handlers.FileCall;
    }
  }

  /** A blank name is refused after the check of the chain, like a name that is not a string. */
  lemma BlankWrite(c: Setup, v: Vault)
    ensures forall path: Json, content: Json, node, sig, k | !(path.Str? && content.Str?) ::
              WriteRequest(c, v, path, content, node, sig, k) == Handlers.FileCall(c.hash, c.root, v, "", WrittenText(c, ""), node, sig, k)
  {
    assert SafePath(c.root, "").None?;
  }

  lemma CallNextIsRequest(c: Setup, s: Site, step: Step)
    requires step.Export? || step.Frame?
    ensures Server(Next(c, s, step)) == Effect(c, Server(s), s.count, step)
  {
    hide Next, Verify, SignedParts, AuthRuns.Run, AuthRuns.Next, AuthSteps, Handlers.RelayCall, Handlers.ExportCall, LinkOpened, VerifyToken,
         RelayRequest, TaskRequest, FileRequest, LedgerRequest, PrepareRequest, RevokeRequest, Arrived, RestartedMesh;
    NextParts(c, s, step);
    CallRun(c, s, step);
  }

  /** What the other steps do to vault and enrolment is what their handlers do. */
  lemma OtherMesh(c: Setup, s: Site, step: Step)
    requires !Writes(step) && !step.ReadLedger? && !step.ConfirmRevoke?
    ensures AuthRuns.Run(c.hash, c.root, s.auth, AuthSteps(c, s, step)).mesh == Effect(c, Server(s), s.count, step).mesh
  {
    hide Handlers.Audited, Handlers.Next, AuthRuns.Run, AuthRuns.Next, VerifyToken, TokenChecked, Invited, CheckInvite, Joined, CheckJoin,
         RestartedMesh, Reloaded, LinkFrame, RevokeRequest, CallSteps, RelayRequest, TaskRequest, FileRequest, LedgerRequest, ExportRequest;
    var h, root, auth := c.hash, c.root, s.auth;
    RunNone(h, root, auth);
    match step {
      case Look => AskMesh(c, auth);
      case PrepareRevoke(_, _, _) => AskMesh(c, auth);
      case Invite(boundTo, ttl, code, now) =>
        RunOne(h, root, auth, AuthRuns.Invite(boundTo, ttl, code, now));
        AuthRuns.InviteMesh(h, root, auth, boundTo, ttl, code, now);
      case Join(n, code, requested, token, times) =>
        RunOne(h, root, auth, AuthRuns.Join(n, code, requested, token, times));
        AuthRuns.JoinMesh(h, root, auth, n, code, requested, token, times);
      case Arrive(_, bearer, now, text) => TokenMesh(c, auth, bearer, now, text);
      case OpenLink(_, token, now, text) => TokenMesh(c, auth, token, now, text);
      case Restart(readable, text) =>
        RunOne(h, root, auth, AuthRuns.Restart(readable, text));
        AuthRuns.RestartMesh(h, root, auth, readable, text);
      case _ =>
    }
  }

  lemma AskMesh(c: Setup, auth: AuthRuns.History)
    ensures AuthRuns.Run(c.hash, c.root, auth, [AuthRuns.Request(Handlers.AuditStep)]) ==
            auth.(mesh := auth.mesh.(vault := Handlers.Audited(c.hash, auth.mesh.vault)))
  {
    hide AuthRuns.Next, AuthRuns.Run, Handlers.Audited;
    RunOne(c.hash, c.root, auth, AuthRuns.Request(Handlers.AuditStep));
    AuthRuns.RequestMesh(c.hash, c.root, auth, Handlers.AuditStep);
  }

  lemma TokenMesh(c: Setup, auth: AuthRuns.History, token: string, now: real, text: string)
    ensures AuthRuns.Run(c.hash, c.root, auth, [AuthRuns.Check(token, now, text)]) ==
            auth.(mesh := TokenChecked(c.hash, auth.mesh, token, now, text))
    ensures VerifyToken(c.hash, auth.mesh, token, now).None? ==> TokenChecked(c.hash, auth.mesh, token, now, text) == auth.mesh
  {
    hide AuthRuns.Next, AuthRuns.Run, VerifyToken;
    RunOne(c.hash, c.root, auth, AuthRuns.Check(token, now, text));
    AuthRuns.CheckMesh(c.hash, c.root, auth, token, now, text);
  }

  lemma RevokeMesh(c: Setup, s: Site, step: Step)
    requires step.ConfirmRevoke?
    ensures AuthRuns.Run(c.hash, c.root, s.auth, AuthSteps(c, s, step)).mesh == RevokeRequest(Server(s), step.confirmation, step.now, step.text).0.mesh
  {
    hide RevokedUpTo, AuthRuns.Run, AuthRuns.Next, CallSteps;
    RunNone(c.hash, c.root, s.auth);
    match RevokedBy(s.challenges, step.confirmation, step.now) {
      case None =>
      case Some(n) =>
        RunOne(c.hash, c.root, s.auth, AuthRuns.RevokeCall(n, step.text));
        AuthRuns.RevokeMesh(c.hash, c.root, s.auth, n, step.text);
    }
  }

  lemma OtherNextIsRequest(c: Setup, s: Site, step: Step)
    requires !Writes(step) && !step.ReadLedger?
    ensures Server(Next(c, s, step)) == Effect(c, Server(s), s.count, step)
  {
    hide Next, AuthRuns.Run, AuthSteps, VerifyToken, TokenChecked, RestartedMesh, Reloaded, Joined, Invited, CheckJoin, RevokedNode,
         Handlers.Audited, Verify, RelayRequest, TaskRequest, FileRequest, LedgerRequest, ExportRequest, AuthRuns.Next, CallSteps, Call,
         Challenges.Prepared, Challenges.Confirmed, LinkFrame, CheckInvite;
    NextParts(c, s, step);
    if step.ConfirmRevoke? {
      RevokeMesh(c, s, step);
    } else {
      OtherMesh(c, s, step);
    }
  }

  /** Every step of a run changes the server as its handler does. */
  lemma NextIsRequest(c: Setup, s: Site, step: Step)
    ensures Server(Next(c, s, step)) == Effect(c, Server(s), s.count, step)
  {
    hide Next, Effect, Server, AuthRuns.Run, AuthSteps;
    if ApiOf(step).Some? {
      BodyNextIsRequest(c, s, step);
    } else if step.ReadLedger? {
      LedgerNextIsRequest(c, s, step);
    } else if step.Export? || step.Frame? {
      CallNextIsRequest(c, s, step);
    } else {
      OtherNextIsRequest(c, s, step);
    }
  }
}
