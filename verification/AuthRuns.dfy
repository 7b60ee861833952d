/** Enrolment over whole runs: who can authenticate, and that revocation is final. */
module AuthRuns {
  import opened Json
  import opened Results
  import opened Chain
  import opened Tasks
  import opened Paths
  import opened Vault
  import opened Handlers
  import opened VaultRuns
  import opened Auth

  // ---- nodes in the vault ----

  /** No node is forgotten and no revoked node becomes active. */
  ghost predicate NodesGrow(before: map<string, Node>, after: map<string, Node>) {
    forall n | n in before :: n in after && (before[n].standing == Revoked ==> after[n].standing == Revoked)
  }

  /** The state file holds the nodes in memory. */
  ghost predicate NodesSaved(v: Vault) {
    v.disk.state.Some? && v.disk.state.value.nodes == v.state.nodes
  }

  ghost predicate NodesKept(v: Vault, after: Vault) {
    NodesGrow(v.state.nodes, after.state.nodes) && (NodesSaved(v) ==> NodesSaved(after))
  }

  lemma EffectKeepsNodes(v: Vault, effect: Effect)
    requires NodesGrow(v.state.nodes, effect.state.nodes)
    requires effect.writes == [SaveState(effect.state)] || (effect.writes == [] && effect.state.nodes == v.state.nodes)
    ensures NodesKept(v, Commit(v, effect))
  {
    PerformOne(v.disk, SaveState(effect.state));
  }

  lemma AppendKeepsNodes(h: string -> string, v: Vault, e: Event, now: string)
    ensures NodesKept(v, Commit(v, Append(h, v, e, now)))
  {
    hide Verifies, Printable, RowOf, AuditEntry, WrittenLines;
    if Verifies(h, v.disk.ledger, v.disk.audit) && Printable(RowOf(e)) {
      AppendOutcome(h, v, e, now);
    } else {
      EffectKeepsNodes(v, Append(h, v, e, now));
    }
  }

  lemma UpsertKeepsNodes(v: Vault, raw: map<string, Json>, freshId: string, now: string)
    ensures NodesKept(v, Commit(v, Upsert(v.state, raw, freshId, now)))
  {
    if Normalized(raw, freshId, now).Some? {
      var t := Normalized(raw, freshId, now).value;
      UpsertFiles(v.disk, t, v.state.(tasks := Upserted(v.state.tasks, t)));
    }
  }

  lemma StoreAndAppendKeepsNodes(h: string -> string, v: Vault, raw: map<string, Json>, node: string, action: Json, sig: string, k: Stamps)
    ensures NodesKept(v, StoreAndAppend(h, v, raw, node, action, sig, k).0)
  {
    if Normalized(raw, k.freshTaskId, k.stored).Some? {
      var v1 := Commit(v, Upsert(v.state, raw, k.freshTaskId, k.stored));
      UpsertKeepsNodes(v, raw, k.freshTaskId, k.stored);
      AppendKeepsNodes(h, v1, TaskEvent(node, action, Normalized(raw, k.freshTaskId, k.stored).value, sig, k), k.applied);
    }
  }

  /** The requests that reach the vault from outside the enrolment code. */
  predicate FromOutside(step: Handlers.Step) {
    step.RelayStep? || step.TaskStep? || step.ExportStep? || step.FileStep? || step.TouchStep? || step.AuditStep?
  }

  lemma WriteFileKeepsNodes(h: string -> string, root: Path, v: Vault, requested: string, text: FileText, node: string, sig: string, k: Stamps)
    ensures NodesKept(v, Handlers.Next(h, root, v, FileStep(requested, text, node, sig, k)))
  {
    hide Append, FileEvent, NodesKept;
    EffectKeepsNodes(v, EnsureClean(h, v));
    WriteTextKeepsChain(h, v, root, requested, text);
    var written := Commit(v, WriteText(v, root, requested, text));
    SameNodesKept(v, written, written);
    AppendKeepsNodes(h, written, FileEvent(node, WrittenName(root, requested), sig, k), k.applied);
    SameNodesKept(v, written, Commit(written, Append(h, written, FileEvent(node, WrittenName(root, requested), sig, k), k.applied)));
  }

  lemma SameNodesKept(v: Vault, v1: Vault, v2: Vault)
    requires v1.state == v.state && v1.disk.state == v.disk.state && NodesKept(v1, v2)
    ensures NodesKept(v, v2)
  {
  }

  lemma UntouchedNodes(v: Vault, after: Vault)
    requires after.state.nodes == v.state.nodes && after.disk == v.disk
    ensures NodesKept(v, after)
  {
  }

  lemma CleanShape(h: string -> string, v: Vault)
    ensures var clean := EnsureClean(h, v);
            clean.state.nodes == v.state.nodes && (clean.writes == [SaveState(clean.state)] || (clean.writes == [] && clean.state == v.state))
  {
  }

  lemma RequestKeepsNodes(h: string -> string, root: Path, v: Vault, step: Handlers.Step)
    requires FromOutside(step)
    ensures NodesKept(v, Handlers.Next(h, root, v, step))
  {
    hide Append, StoreAndAppend, NodesKept, EnsureClean, Verifies, FileCall;
    CleanShape(h, v);
    EffectKeepsNodes(v, EnsureClean(h, v));
    UntouchedNodes(v, v);
    UntouchedNodes(v, Audited(h, v));
    match step {
      case RelayStep(e, now) => AppendKeepsNodes(h, v, e, now);
      case TaskStep(payload, node, sig, k) =>
        StoreAndAppendKeepsNodes(h, v, RequestedTask(payload, node), node, ActionOf(payload), sig, k);
      case ExportStep(source, localNode, k) =>
        StoreAndAppendKeepsNodes(h, v, ExportedTask(source), localNode, Str("export"), "local-export", k);
      case FileStep(requested, text, node, sig, k) => WriteFileKeepsNodes(h, root, v, requested, text, node, sig, k);
      case TouchStep(nodeId, now) => EffectKeepsNodes(v, Touch(v.state, nodeId, now));
      case AuditStep =>
    }
  }

  lemma MarkOneNode(v: Vault, n: string, text: string)
    ensures var after := Commit(v, MarkRevoked(v.state, n, text));
            && NodesKept(v, after) && n in after.state.nodes && after.state.nodes[n].standing == Revoked
            && forall m | m != n ::
                 (m in after.state.nodes <==> m in v.state.nodes) && (m in v.state.nodes ==> after.state.nodes[m] == v.state.nodes[m])
  {
    hide PerformAll;
    EffectKeepsNodes(v, MarkRevoked(v.state, n, text));
  }

  lemma NodesKeptAgain(v1: Vault, v2: Vault, v3: Vault)
    requires NodesKept(v1, v2) && NodesKept(v2, v3)
    ensures NodesKept(v1, v3)
  {
  }

  lemma {:induction false} MarkAllNodes(v: Vault, names: seq<string>, text: string)
    ensures NodesKept(v, MarkAll(v, names, text))
    ensures forall n | n in names :: n in MarkAll(v, names, text).state.nodes && MarkAll(v, names, text).state.nodes[n].standing == Revoked
    ensures forall n | n in MarkAll(v, names, text).state.nodes :: n in names || (n in v.state.nodes && MarkAll(v, names, text).state.nodes[n] == v.state.nodes[n])
  {
    hide Commit, MarkRevoked;
    if names == [] {
      UntouchedNodes(v, v);
    } else {
      var front, last := names[..|names| - 1], names[|names| - 1];
      var before := MarkAll(v, front, text);
      MarkAllNodes(v, front, text);
      hide NodesKept;
      MarkOneNode(before, last, text);
      NodesKeptAgain(v, before, Commit(before, MarkRevoked(before.state, last, text)));
      assert names == front + [last];
    }
  }

  lemma RestartNodes(m: Mesh, readable: bool, text: string)
    ensures var after := RestartedMesh(m, readable, text).vault;
            && (forall n | n in m.revoked :: n in after.state.nodes && after.state.nodes[n].standing == Revoked)
            && (readable && NodesSaved(m.vault) ==> NodesKept(m.vault, after))
            && (!readable ==> forall n | n in after.state.nodes :: n in m.revoked)
  {
    var disk := if readable then m.vault.disk else m.vault.disk.(state := None);
    SortedNamesFacts(m.revoked);
    MarkAllNodes(Vault(Load(disk), disk), SortedNames(m.revoked), text);
  }

  /** A restart that reads the state file leaves every token alone. */
  lemma RestartSparesAll(h: string -> string, m: Mesh, text: string, n: string, token: string, now: real)
    requires NodesSaved(m.vault) && VerifyToken(h, m, token, now) == Some(n)
    ensures VerifyToken(h, RestartedMesh(m, true, text), token, now) == Some(n)
  {
    hide VerifyToken, MarkAll;
    var after := RestartedMesh(m, true, text);
    SortedNamesFacts(m.revoked);
    MarkAllNodes(Vault(Load(m.vault.disk), m.vault.disk), SortedNames(m.revoked), text);
    TokenKept(h, m, after, token, now, n);
  }

  // ---- runs ----

  datatype Step =
    | Invite(boundTo: Option<string>, ttl: int, code: string, now: real)
    | Join(nodeId: string, code: string, requested: Requested, token: string, times: Times)
    | Check(token: string, now: real, text: string)
    | Request(step: Handlers.Step)
    | RevokeCall(nodeId: string, text: string)
    | Restart(readable: bool, text: string)
    // a join or a revocation that a crash cuts after `k` of its writes, and the restart
    | CutJoin(nodeId: string, code: string, requested: Requested, token: string, times: Times, k: nat, readable: bool, text: string)
    | CutRevoke(nodeId: string, k: nat, readable: bool, text: string)

  /** An issued code, a join that was accepted and stored its token, and a certificate that was
      issued. */
  datatype Issued = Issued(code: string, boundTo: Option<string>, expiresAt: real)
  datatype Enrolled = Enrolled(nodeId: string, code: string, token: string, at: real, tokenExpires: real)
  datatype Certified = Certified(nodeId: string, expiresAt: real)

  /** `revocations` are the nodes for which `revoke_node` returned True. */
  datatype History = History(mesh: Mesh, invites: seq<Issued>, joins: seq<Enrolled>, certified: seq<Certified>, revocations: seq<string>)

  const START := History(EMPTY_MESH, [], [], [], [])

  function EnrolledBy(nodeId: string, code: string, token: string, t: Times): Enrolled {
    Enrolled(nodeId, code, token, t.checked, t.tokened + TOKEN_LIFETIME)
  }

  /** What the first `k` writes of a join add to the history. */
  function JoinRecorded(s: History, nodeId: string, code: string, token: string, t: Times, k: nat): History {
    s.(joins := if k >= 3 then s.joins + [EnrolledBy(nodeId, code, token, t)] else s.joins,
       certified := if k >= 1 then s.certified + [Certified(nodeId, t.issued + VALIDITY)] else s.certified)
  }

  /** The mesh after a crash that lets the first `k` writes of revoking n through, and a restart. */
  function CutRevocation(m: Mesh, n: string, k: nat, readable: bool, text: string): Mesh {
    RestartedMesh(if n in m.vault.state.nodes then RevokedUpTo(m, n, k, text) else m, readable, text)
  }

  function Next(h: string -> string, root: Path, s: History, step: Step): History {
    match step
    case Invite(nodeId, ttl, code, now) =>
      if CheckInvite(nodeId, ttl).Some? then s
      else s.(mesh := Invited(h, s.mesh, nodeId, ttl, code, now), invites := s.invites + [Issued(code, nodeId, now + ttl as real)])
    case Join(nodeId, code, requested, token, t) =>
      if CheckJoin(h, s.mesh, nodeId, code, requested, t).Some? then s
      else JoinRecorded(s, nodeId, code, token, t, 4).(mesh := Joined(h, s.mesh, nodeId, code, requested, token, t))
    case Check(token, now, text) => s.(mesh := TokenChecked(h, s.mesh, token, now, text))
    case Request(request) => s.(mesh := s.mesh.(vault := Handlers.Next(h, root, s.mesh.vault, request)))
    case RevokeCall(nodeId, text) =>
      s.(mesh := RevokedNode(s.mesh, nodeId, text),
         revocations := if nodeId in s.mesh.vault.state.nodes then s.revocations + [nodeId] else s.revocations)
    case Restart(readable, text) => s.(mesh := RestartedMesh(s.mesh, readable, text))
    case CutJoin(nodeId, code, requested, token, t, k, readable, text) =>
      if CheckJoin(h, s.mesh, nodeId, code, requested, t).Some? then s.(mesh := RestartedMesh(s.mesh, readable, text))
      else
        JoinRecorded(s, nodeId, code, token, t, k).(
          mesh := RestartedMesh(JoinedUpTo(h, s.mesh, nodeId, code, requested, token, t, k), readable, text))
    case CutRevoke(nodeId, k, readable, text) => s.(mesh := CutRevocation(s.mesh, nodeId, k, readable, text))
  }

  function Run(h: string -> string, root: Path, s: History, steps: seq<Step>): History {
    if steps == [] then s else Next(h, root, Run(h, root, s, steps[..|steps| - 1]), steps[|steps| - 1])
  }

  /** Codes and tokens are fresh when they are made, and requests come from outside. */
  predicate Fresh(s: History, step: Step) {
    match step
    case Invite(_, _, code, _) => forall i | i in s.invites :: i.code != code
    case Join(_, _, _, token, _) => token != "" && forall j | j in s.joins :: j.token != token
    case CutJoin(_, _, _, token, _, _, _, _) => token != "" && forall j | j in s.joins :: j.token != token
    case Request(request) => FromOutside(request)
    case _ => true
  }

  predicate FreshRun(h: string -> string, root: Path, s: History, steps: seq<Step>) {
    steps == [] ||
    var front := steps[..|steps| - 1];
    FreshRun(h, root, s, front) && Fresh(Run(h, root, s, front), steps[|steps| - 1])
  }

  lemma RunOne(h: string -> string, root: Path, s: History, step: Step)
    ensures Run(h, root, s, [step]) == Next(h, root, s, step)
  {
    hide Next;
    assert [step][..0] == [];
  }

  // What each step makes of the mesh.

  lemma InviteMesh(h: string -> string, root: Path, s: History, boundTo: Option<string>, ttl: int, code: string, now: real)
    ensures Next(h, root, s, Invite(boundTo, ttl, code, now)).mesh ==
            if CheckInvite(boundTo, ttl).Some? then s.mesh else Invited(h, s.mesh, boundTo, ttl, code, now)
  {
    hide CheckInvite, Invited, CheckJoin, Joined, JoinedUpTo, JoinRecorded, TokenChecked, Handlers.Next, RevokedNode, RestartedMesh, CutRevocation;
  }

  lemma JoinMesh(h: string -> string, root: Path, s: History, n: string, code: string, requested: Requested, token: string, t: Times)
    ensures Next(h, root, s, Join(n, code, requested, token, t)).mesh ==
            if CheckJoin(h, s.mesh, n, code, requested, t).Some? then s.mesh else Joined(h, s.mesh, n, code, requested, token, t)
  {
    hide CheckInvite, Invited, CheckJoin, Joined, JoinedUpTo, JoinRecorded, TokenChecked, Handlers.Next, RevokedNode, RestartedMesh, CutRevocation;
  }

  lemma CheckMesh(h: string -> string, root: Path, s: History, token: string, now: real, text: string)
    ensures Next(h, root, s, Check(token, now, text)) == s.(mesh := TokenChecked(h, s.mesh, token, now, text))
  {
    hide CheckInvite, Invited, CheckJoin, Joined, JoinedUpTo, JoinRecorded, TokenChecked, Handlers.Next, RevokedNode, RestartedMesh, CutRevocation;
  }

  lemma RequestMesh(h: string -> string, root: Path, s: History, request: Handlers.Step)
    ensures Next(h, root, s, Request(request)) == s.(mesh := s.mesh.(vault := Handlers.Next(h, root, s.mesh.vault, request)))
  {
    hide CheckInvite, Invited, CheckJoin, Joined, JoinedUpTo, JoinRecorded, TokenChecked, Handlers.Next, RevokedNode, RestartedMesh, CutRevocation;
  }

  lemma RevokeMesh(h: string -> string, root: Path, s: History, n: string, text: string)
    ensures Next(h, root, s, RevokeCall(n, text)).mesh == RevokedNode(s.mesh, n, text)
  {
    hide CheckInvite, Invited, CheckJoin, Joined, JoinedUpTo, JoinRecorded, TokenChecked, Handlers.Next, RevokedNode, RestartedMesh, CutRevocation;
  }

  lemma RestartMesh(h: string -> string, root: Path, s: History, readable: bool, text: string)
    ensures Next(h, root, s, Restart(readable, text)) == s.(mesh := RestartedMesh(s.mesh, readable, text))
  {
    hide CheckInvite, Invited, CheckJoin, Joined, JoinedUpTo, JoinRecorded, TokenChecked, Handlers.Next, RevokedNode, RestartedMesh, CutRevocation;
  }

  lemma CutRevokeMesh(h: string -> string, root: Path, s: History, n: string, k: nat, readable: bool, text: string)
    ensures Next(h, root, s, CutRevoke(n, k, readable, text)) == s.(mesh := CutRevocation(s.mesh, n, k, readable, text))
  {
    hide CheckInvite, Invited, CheckJoin, Joined, JoinedUpTo, JoinRecorded, TokenChecked, Handlers.Next, RevokedNode, RestartedMesh, CutRevocation;
  }

  // ---- revocation is final ----

  lemma RevokedFails(h: string -> string, m: Mesh, n: string, token: string, now: real)
    requires n in m.revoked
    ensures VerifyToken(h, m, token, now) != Some(n)
  {
  }

  lemma RevokeCallRevokes(h: string -> string, root: Path, s: History, n: string, text: string)
    requires n in s.mesh.vault.state.nodes
    ensures n in Next(h, root, s, RevokeCall(n, text)).mesh.revoked
  {
    hide Commit, TokensRevoked, CertRevoked;
  }

  lemma NextKeepsRevoked(h: string -> string, root: Path, s: History, step: Step)
    ensures s.mesh.revoked <= Next(h, root, s, step).mesh.revoked
  {
    hide VerifyToken, CheckJoin, CheckInvite, Commit, Restarted, TokensRevoked, CertRevoked, Handlers.Next, FindCode, LiveTokens;
  }

  lemma {:induction false} RunKeepsRevoked(h: string -> string, root: Path, s: History, steps: seq<Step>)
    ensures s.mesh.revoked <= Run(h, root, s, steps).mesh.revoked
  {
    hide Next;
    if steps != [] {
      RunKeepsRevoked(h, root, s, steps[..|steps| - 1]);
      NextKeepsRevoked(h, root, Run(h, root, s, steps[..|steps| - 1]), steps[|steps| - 1]);
    }
  }

  /** Once `revoke_node` has returned True for n, no later run of invites, joins, checks, relayed
      events, touches and restarts, even ones that fall back to the default state, makes any token
      authenticate as n. */
  lemma RevokedNeverAuthenticates(h: string -> string, root: Path, s: History, n: string, text: string, steps: seq<Step>, token: string, now: real)
    requires n in s.mesh.vault.state.nodes
    ensures var after := Run(h, root, Next(h, root, s, RevokeCall(n, text)), steps);
            VerifyToken(h, after.mesh, token, now) != Some(n)
  {
    hide Next, VerifyToken;
    RevokeCallRevokes(h, root, s, n, text);
    RunKeepsRevoked(h, root, Next(h, root, s, RevokeCall(n, text)), steps);
    RevokedFails(h, Run(h, root, Next(h, root, s, RevokeCall(n, text)), steps).mesh, n, token, now);
  }

  // ---- revocation that is cut ----

  /** n is revoked in the vault, in memory and on disk. */
  ghost predicate Barred(m: Mesh, n: string) {
    && NodesSaved(m.vault)
    && n in m.vault.state.nodes && m.vault.state.nodes[n].standing == Revoked
  }

  lemma BarredFails(h: string -> string, m: Mesh, n: string, token: string, now: real)
    requires Barred(m, n)
    ensures VerifyToken(h, m, token, now) != Some(n)
  {
  }

  predicate ReadsState(step: Step) {
    (step.Restart? || step.CutJoin? || step.CutRevoke? ==> step.readable) && (step.Request? ==> FromOutside(step.step))
  }

  lemma NextKeepsBarred(h: string -> string, root: Path, s: History, step: Step, n: string)
    requires Barred(s.mesh, n) && ReadsState(step)
    ensures Barred(Next(h, root, s, step).mesh, n)
  {
    hide Verifies, PerformAll, FindCode, CodeMatches, LiveTokens, TokensRevoked, CertRevoked, UsableCodes, RestartedMesh, VerifyToken,
         Handlers.Next, CutRevocation;
    var v := s.mesh.vault;
    match step {
      case Join(nodeId, code, requested, token, t) =>
        EffectKeepsNodes(v, Register(v.state, nodeId, "collab", 86_400, t.text));
      case Check(token, now, text) =>
        if VerifyToken(h, s.mesh, token, now).Some? {
          EffectKeepsNodes(v, Touch(v.state, VerifyToken(h, s.mesh, token, now).value, text));
        }
      case Request(request) => RequestKeepsNodes(h, root, v, request);
      case RevokeCall(nodeId, text) => EffectKeepsNodes(v, Revoke(v.state, nodeId, text));
      case Restart(readable, text) => RestartNodes(s.mesh, readable, text);
      case CutJoin(_, _, _, _, _, _, _, _) => CutJoinKeepsBarred(h, root, s, step, n);
      case CutRevoke(nodeId, k, readable, text) => CutRevokeKeepsBarred(s.mesh, nodeId, k, text, n);
      case _ =>
    }
  }

  lemma CutJoinKeepsBarred(h: string -> string, root: Path, s: History, step: Step, n: string)
    requires Barred(s.mesh, n) && step.CutJoin? && step.readable
    ensures Barred(Next(h, root, s, step).mesh, n)
  {
    hide Verifies, PerformAll, FindCode, CodeMatches, LiveTokens, CheckJoin, RestartedMesh;
    EffectKeepsNodes(s.mesh.vault, Register(s.mesh.vault.state, step.nodeId, "collab", 86_400, step.times.text));
    RestartNodes(s.mesh, true, step.text);
    if CheckJoin(h, s.mesh, step.nodeId, step.code, step.requested, step.times).None? {
      RestartNodes(JoinedUpTo(h, s.mesh, step.nodeId, step.code, step.requested, step.token, step.times, step.k), true, step.text);
    }
  }

  lemma CutRevokeKeepsBarred(m: Mesh, nodeId: string, k: nat, text: string, n: string)
    requires Barred(m, n)
    ensures Barred(CutRevocation(m, nodeId, k, true, text), n)
  {
    hide PerformAll, TokensRevoked, CertRevoked, RestartedMesh;
    EffectKeepsNodes(m.vault, Revoke(m.vault.state, nodeId, text));
    RestartNodes(if nodeId in m.vault.state.nodes then RevokedUpTo(m, nodeId, k, text) else m, true, text);
  }

  lemma {:induction false} RunKeepsBarred(h: string -> string, root: Path, s: History, steps: seq<Step>, n: string)
    requires Barred(s.mesh, n) && forall step | step in steps :: ReadsState(step)
    ensures Barred(Run(h, root, s, steps).mesh, n)
  {
    hide Next, Barred, ReadsState;
    if steps != [] {
      RunKeepsBarred(h, root, s, steps[..|steps| - 1], n);
      NextKeepsBarred(h, root, Run(h, root, s, steps[..|steps| - 1]), steps[|steps| - 1], n);
    }
  }

  /** Revocation works from its first durable write: after any nonempty prefix of the four writes, a
      crash and a restart that reads the state file, n never authenticates again in any run whose
      restarts read the state file. */
  lemma CutRevocationIsEffective(h: string -> string, root: Path, s: History, n: string, k: nat, text: string, steps: seq<Step>, token: string, now: real)
    requires n in s.mesh.vault.state.nodes && 1 <= k <= 4
    requires forall step | step in steps :: ReadsState(step)
    ensures var after := Run(h, root, Next(h, root, s, CutRevoke(n, k, true, text)), steps);
            VerifyToken(h, after.mesh, token, now) != Some(n)
  {
    hide Next, VerifyToken, ReadsState, RestartedMesh, TokensRevoked, CertRevoked;
    var m := RevokedUpTo(s.mesh, n, k, text);
    PerformOne(s.mesh.vault.disk, SaveState(Revoke(s.mesh.vault.state, n, text).state));
    assert Barred(m, n);
    RestartNodes(m, true, text);
    CutRevokeMesh(h, root, s, n, k, true, text);
    RunKeepsBarred(h, root, Next(h, root, s, CutRevoke(n, k, true, text)), steps, n);
    BarredFails(h, Run(h, root, Next(h, root, s, CutRevoke(n, k, true, text)), steps).mesh, n, token, now);
  }

  /** From the third write on it also survives restarts that fall back to the default state. */
  lemma CutAfterThirdWriteIsFinal(h: string -> string, root: Path, s: History, n: string, k: nat, readable: bool, text: string, steps: seq<Step>, token: string, now: real)
    requires n in s.mesh.vault.state.nodes && k >= 3
    ensures var after := Run(h, root, Next(h, root, s, CutRevoke(n, k, readable, text)), steps);
            VerifyToken(h, after.mesh, token, now) != Some(n)
  {
    hide Next, VerifyToken, Commit, TokensRevoked, CertRevoked, Restarted;
    CutRevokeMesh(h, root, s, n, k, readable, text);
    RunKeepsRevoked(h, root, Next(h, root, s, CutRevoke(n, k, readable, text)), steps);
    RevokedFails(h, Run(h, root, Next(h, root, s, CutRevoke(n, k, readable, text)), steps).mesh, n, token, now);
  }

  /** Before that it does not: cut after the second write and restarted on the default state, the
      node enrols again with a new code. */
  lemma CutAfterSecondWriteRejoins(h: string -> string, root: Path, s: History, n: string, text: string,
                                   code: string, token: string, now: real, t: Times)
    requires GoodHash(h) && n in s.mesh.vault.state.nodes && n !in s.mesh.revoked && ValidNodeId(n)
    requires code != "" && token != "" && now <= t.checked && Ordered(t)
    requires t.checked < now + 300.0 && t.tokened < t.issued + VALIDITY
    requires forall c | c in s.mesh.codes :: c.hash != h(code)
    requires forall r | r in s.mesh.tokens :: r.hash != h(token)
    ensures var steps := [Invite(None, 300, code, now), Join(n, code, NotGiven, token, t)];
            var after := Run(h, root, Next(h, root, s, CutRevoke(n, 2, false, text)), steps);
            VerifyToken(h, after.mesh, token, t.tokened) == Some(n)
  {
    hide Next, VerifyToken, Joined, Invited, CheckJoin, CutRevocation, Ordered;
    var s0 := Next(h, root, s, CutRevoke(n, 2, false, text));
    var invite, join := Invite(None, 300, code, now), Join(n, code, NotGiven, token, t);
    CutTwiceAndForgotten(s.mesh, n, text);
    CutRevokeMesh(h, root, s, n, 2, false, text);
    InviteJoins(h, s0.mesh, n, code, now, t);
    InviteMesh(h, root, s0, None, 300, code, now);
    var s1 := Next(h, root, s0, invite);
    JoinedAuthenticates(h, s1.mesh, n, code, NotGiven, token, t);
    JoinMesh(h, root, s1, n, code, NotGiven, token, t);
    assert [invite, join][..1] == [invite];
    RunOne(h, root, s0, invite);
  }

  /** The certificate is revoked, and the vault has forgotten n. */
  lemma CutTwiceAndForgotten(m: Mesh, n: string, text: string)
    requires n in m.vault.state.nodes && n !in m.revoked
    ensures var after := CutRevocation(m, n, 2, false, text);
            && n !in after.vault.state.nodes && CanIssue(after.certs, n)
            && after.codes == m.codes && after.tokens == m.tokens && after.revoked == m.revoked
  {
    hide Commit, Restarted;
    RestartNodes(RevokedUpTo(m, n, 2, text), false, text);
  }

  /** A node unknown to the vault that can have a certificate joins with a new code. */
  lemma InviteJoins(h: string -> string, m: Mesh, n: string, code: string, now: real, t: Times)
    requires GoodHash(h) && ValidNodeId(n) && n !in m.vault.state.nodes && CanIssue(m.certs, n)
    requires code != "" && now <= t.checked < now + 300.0
    requires forall c | c in m.codes :: c.hash != h(code)
    ensures CheckJoin(h, Invited(h, m, None, 300, code, now), n, code, NotGiven, t).None?
    ensures Invited(h, m, None, 300, code, now).tokens == m.tokens && Invited(h, m, None, 300, code, now).revoked == m.revoked
  {
    hide FindCode;
    var codes := Invited(h, m, None, 300, code, now).codes;
    assert codes[|codes| - 1] in codes && CodeMatches(h, codes[|codes| - 1], n, code, NotGiven, t.checked);
    FindCodeFirst(h, codes, n, code, NotGiven, t.checked);
  }

  /** Cut after the first write and restarted on the default state, a relayed join event brings the
      node back with its old token. */
  lemma CutAfterFirstWriteRevives(h: string -> string, root: Path, s: History, n: string, text: string, e: Event, token: string, now: real)
    requires n in s.mesh.vault.state.nodes && n !in s.mesh.revoked && n != ""
    requires Verifies(h, s.mesh.vault.disk.ledger, s.mesh.vault.disk.audit)
    requires Printable(RowOf(e)) && e.op == "join" && Get(e.payload, "node_id") == Str(n)
    requires VerifyToken(h, s.mesh, token, now) == Some(n)
    requires forall r | r in s.mesh.tokens && r.hash == h(token) :: r.nodeId == n
    ensures var after := Run(h, root, Next(h, root, s, CutRevoke(n, 1, false, text)), [Request(RelayStep(e, text))]);
            VerifyToken(h, after.mesh, token, now) == Some(n)
  {
    hide Verifies, Printable, Apply, CutRevocation, Append, Commit, RowOf, VerifyToken, Authenticates;
    var m0 := CutRevocation(s.mesh, n, 1, false, text);
    CutOnceAndForgotten(s.mesh, n, text);
    JoinEventActivates(h, m0.vault, e, n, text);
    RunOne(h, root, s.(mesh := m0), Request(RelayStep(e, text)));
    StillAuthenticates(h, s.mesh, m0.(vault := Commit(m0.vault, Append(h, m0.vault, e, text))), n, token, now);
  }

  /** The vault's view of n is all that changed, and n is active in it. */
  lemma StillAuthenticates(h: string -> string, m: Mesh, after: Mesh, n: string, token: string, now: real)
    requires VerifyToken(h, m, token, now) == Some(n)
    requires forall r | r in m.tokens && r.hash == h(token) :: r.nodeId == n
    requires after.tokens == m.tokens && after.revoked == m.revoked && after.certs == m.certs
    requires n in after.vault.state.nodes && after.vault.state.nodes[n].standing == Active
    ensures VerifyToken(h, after, token, now) == Some(n)
  {
    var r :| r in m.tokens && r.nodeId == n && Authenticates(h, m, r, token, now);
    assert Authenticates(h, after, r, token, now);
  }

  /** Only the state file was written, and it is not read: the vault has forgotten n. */
  lemma CutOnceAndForgotten(m: Mesh, n: string, text: string)
    requires n in m.vault.state.nodes && n !in m.revoked
    ensures var after := CutRevocation(m, n, 1, false, text);
            && n !in after.vault.state.nodes
            && after.tokens == m.tokens && after.revoked == m.revoked && after.certs == m.certs
            && after.vault.disk.ledger == m.vault.disk.ledger && after.vault.disk.audit == m.vault.disk.audit
  {
    var cut := RevokedUpTo(m, n, 1, text);
    PerformOne(m.vault.disk, SaveState(Revoke(m.vault.state, n, text).state));
    RestartNodes(cut, false, text);
    MarkAllKeepsChain(Vault(DEFAULT_STATE, cut.vault.disk.(state := None)), SortedNames(cut.revoked), text);
  }

  lemma JoinEventActivates(h: string -> string, v: Vault, e: Event, n: string, text: string)
    requires Verifies(h, v.disk.ledger, v.disk.audit) && Printable(RowOf(e))
    requires e.op == "join" && Get(e.payload, "node_id") == Str(n) && n != "" && n !in v.state.nodes
    ensures var after := Commit(v, Append(h, v, e, text)).state; n in after.nodes && after.nodes[n].standing == Active
  {
    hide Append, Commit, PerformAll, Verifies, Printable, RowOf, WrittenLines, AuditEntry;
    AppendOutcome(h, v, e, text);
  }

  lemma {:induction false} MarkAllKeepsChain(v: Vault, names: seq<string>, text: string)
    ensures MarkAll(v, names, text).disk.ledger == v.disk.ledger && MarkAll(v, names, text).disk.audit == v.disk.audit
  {
    if names != [] {
      MarkAllKeepsChain(v, names[..|names| - 1], text);
      var before := MarkAll(v, names[..|names| - 1], text);
      PerformOne(before.disk, SaveState(MarkRevoked(before.state, names[|names| - 1], text).state));
    }
  }

  /** Right after an accepted join its token authenticates as the node. */
  lemma JoinedAuthenticates(h: string -> string, m: Mesh, n: string, code: string, requested: Requested, token: string, t: Times)
    requires GoodHash(h) && token != "" && Ordered(t) && t.tokened < t.issued + VALIDITY && n !in m.revoked
    requires CheckJoin(h, m, n, code, requested, t).None?
    requires forall r | r in m.tokens :: r.hash != h(token)
    ensures VerifyToken(h, Joined(h, m, n, code, requested, token, t), token, t.tokened) == Some(n)
  {
    var after := Joined(h, m, n, code, requested, token, t);
    var record := Token(n, h(token), t.tokened + TOKEN_LIFETIME, false);
    LiveFacts(m.tokens, t.tokened);
    assert record in after.tokens;
    assert Authenticates(h, after, record, token, t.tokened);
    forall r | r in after.tokens && Authenticates(h, after, r, token, t.tokened) ensures r.nodeId == n {
      assert r in LiveTokens(m.tokens, t.tokened) || r == record;
    }
  }
}
