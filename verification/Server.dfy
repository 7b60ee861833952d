/** The request handlers on the objects, in the order of their steps. */
module Server {
  import opened Json
  import opened Results
  import opened Signing
  import opened Trust
  import opened Vault
  import opened Handlers
  import opened CollabVaults
  import opened MeshAuths
  import opened Requests

  class MeshServer {
    const vault: CollabVault
    const auth: MeshAuth
    const trust: TrustManager
    const reading: string -> FileText
    var challenges: Challenges.Open
    var pending: map<nat, Waiting>
    var links: map<nat, string>

    ghost predicate Valid()
      reads this, trust
    {
      auth.vault == vault && auth.hash == vault.hash && trust.Valid()
    }

    ghost function Setting(): Setup {
      Setup(vault.hash, trust.config, vault.root, reading)
    }

    ghost function Model(): ServerState
      reads this, vault, auth, auth.vault, auth.identity, trust
    {
      ServerState(auth.Model(), trust.nonces, challenges, pending, links)
    }

    constructor (vault: CollabVault, auth: MeshAuth, trust: TrustManager, reading: string -> FileText)
      requires auth.vault == vault && auth.hash == vault.hash && trust.Valid()
      ensures Valid() && this.vault == vault && this.auth == auth && this.trust == trust && this.reading == reading
      ensures challenges == map[] && pending == map[] && links == map[]
    {
      this.vault, this.auth, this.trust, this.reading := vault, auth, trust, reading;
      challenges, pending, links := map[], map[], map[];
    }

    /** The headers of a signed request with a body: the token is checked, and its node kept. */
    method Arrive(request: nat, api: Api, bearer: string, now: real, text: string) returns (admitted: bool)
      requires Valid()
      modifies this`pending, vault
      ensures Valid()
      ensures Model() == Arrived(Setting(), old(Model()), request, api, bearer, now, text)
    {
      var node := auth.CheckToken(bearer, now, text);
      if node.None? || node.value == "" {
        return false;
      }
      pending := pending[request := Waiting(api, node.value)];
      admitted := true;
    }

    /** Its body, checked for that node. */
    method Receive(request: nat, message: Json, now: real, saveTime: real) returns (verdict: Verdict)
      requires Valid() && request in pending
      modifies this`pending, trust
      ensures Valid()
      ensures (Model(), verdict) == Received(Setting(), old(Model()), request, message, now, saveTime)
    {
      verdict := trust.VerifyMessage(message, Some(pending[request].node), now, saveTime);
      pending := pending - {request};
    }

    /** The gate of a signed request without a body. */
    method Admit(bearer: string, message: Json, t: Moment) returns (verdict: Verdict)
      requires Valid()
      modifies vault, trust
      ensures Valid()
      ensures (Model(), verdict) == Gated(Setting(), old(Model()), bearer, message, t)
    {
      hide Verify;
      var node := auth.CheckToken(bearer, t.checkedAt, t.text);
      if node.None? || node.value == "" {
        return Rejected(InvalidNode);
      }
      verdict := trust.VerifyMessage(message, node, t.verifiedAt, t.savedAt);
    }

    /** `api_relay` once the body is there. */
    method ApiRelay(request: nat, message: Json, now: real, saveTime: real, k: Stamps) returns (reply: Reply)
      requires Valid() && request in pending
      modifies this`pending, vault, trust
      ensures Valid()
      ensures (Model(), reply) == RelayRequest(Setting(), old(Model()), request, message, now, saveTime, k)
    {
      var verdict := Receive(request, message, now, saveTime);
      if !verdict.Verified? {
        return RefusalReply(message, verdict);
      }
      var error := vault.AppendEvent(SignedEvent(SignedParts(verdict.nodeId, message), k), k.applied);
      reply := AppendReply(error);
    }

    /** Check the chain, store the task, append the stored task. */
    method StoreTask(raw: map<string, Json>, node: string, action: Json, sig: string, k: Stamps) returns (error: Option<VaultError>)
      modifies vault
      ensures (vault.Model(), error) == StoreAndAppend(vault.hash, old(vault.Model()), raw, node, action, sig, k)
    {
      var saved := vault.UpsertTask(raw, k.freshTaskId, k.stored);
      if saved.Err? {
        PerformNone(vault.disk);
        return Some(saved.error);
      }
      error := vault.AppendEvent(TaskEvent(node, action, saved.value, sig, k), k.applied);
    }

    /** `api_collab_task` on an accepted envelope. */
    method ApplyTask(payload: map<string, Json>, node: string, sig: string, k: Stamps) returns (reply: Reply)
      modifies vault
      ensures (vault.Model(), reply) == TaskCall(vault.hash, old(vault.Model()), payload, node, sig, k)
    {
      hide Append, Upsert, StoreAndAppend, PyText;
      var action := if "action" in payload then payload["action"] else Str("create");
      if !Hashable(action) {
        return ServerError;
      }
      var task := match Get(payload, "task") case Obj(fields) => fields case _ => payload - {"action"};
      if action == Str("claim") {
        task := task["status" := Str("processing")]["claimed_by" := Str(node)];
      } else if action == Str("complete") || action == Str("done") {
        task := task["status" := Str("done")]["completed_by" := Str(node)];
      }
      var error := vault.EnsureAuditClean();
      if error.Some? {
        return Unavailable;
      }
      PerformNone(old(vault.disk));
      error := StoreTask(task, node, action, sig, k);
      reply := if error == Some(InvalidStatus) then BadRequest else AppendReply(error);
    }

    /** `api_collab_task` once the body is there. */
    method ApiTask(request: nat, message: Json, now: real, saveTime: real, k: Stamps) returns (reply: Reply)
      requires Valid() && request in pending
      modifies this`pending, vault, trust
      ensures Valid()
      ensures (Model(), reply) == TaskRequest(Setting(), old(Model()), request, message, now, saveTime, k)
    {
      var verdict := Receive(request, message, now, saveTime);
      if !verdict.Verified? {
        return RefusalReply(message, verdict);
      }
      var p := SignedParts(verdict.nodeId, message);
      if p.op != "task" {
        return Forbidden;
      }
      reply := ApplyTask(p.payload, p.node, p.sig, k);
    }

    /** `api_collab_export` of a local task, once the caller may write. */
    method ApiExport(source: map<string, Json>, localNode: string, k: Stamps) returns (reply: Reply)
      requires Valid()
      modifies vault
      ensures Valid()
      ensures (Model(), reply) == ExportRequest(Setting(), old(Model()), source, localNode, k)
    {
      if !Hashable(Get(source, "status")) {
        return ServerError;
      }
      var error := vault.EnsureAuditClean();
      if error.Some? {
        return Unavailable;
      }
      PerformNone(old(vault.disk));
      error := StoreTask(ExportedTask(source), localNode, Str("export"), "local-export", k);
      reply := AppendReply(error);
    }

    /** The write action of `api_collab_file` on an accepted envelope. */
    method ApplyWrite(path: Json, content: Json, node: string, sig: string, k: Stamps) returns (reply: Reply)
      requires Valid()
      modifies vault
      ensures Valid()
      ensures (vault.Model(), reply) == WriteRequest(Setting(), old(vault.Model()), path, content, node, sig, k)
    {
      var error := vault.EnsureAuditClean();
      if error.Some? {
        return Unavailable;
      }
      PerformNone(old(vault.disk));
      if !path.Str? || !content.Str? {
        return Forbidden;
      }
      var written := vault.WriteFile(path.s, reading(content.s).(chars := content.s));
      if written.Err? {
        return Forbidden;
      }
      error := vault.AppendEvent(FileEvent(node, written.value, sig, k), k.applied);
      reply := AppendReply(error);
    }

    /** `api_collab_file` once the body is there. */
    method ApiFile(request: nat, message: Json, now: real, saveTime: real, k: Stamps) returns (reply: Reply)
      requires Valid() && request in pending
      modifies this`pending, vault, trust
      ensures Valid()
      ensures (Model(), reply) == FileRequest(Setting(), old(Model()), request, message, now, saveTime, k)
    {
      var verdict := Receive(request, message, now, saveTime);
      if !verdict.Verified? {
        return RefusalReply(message, verdict);
      }
      var p := SignedParts(verdict.nodeId, message);
      if p.op != "file_update" {
        return Forbidden;
      }
      match FileActionOf(p.payload) {
        case Read => reply := FileRead;
        case Neither => reply := BadRequest;
        case Write(path, content) => reply := ApplyWrite(path, content, p.node, p.sig, k);
      }
    }

    /** `api_collab_ledger`, up to its answer. */
    method ApiLedger(bearer: string, message: Json, t: Moment) returns (reply: Reply)
      requires Valid()
      modifies vault, trust
      ensures Valid()
      ensures (Model(), reply) == LedgerRequest(Setting(), old(Model()), bearer, message, t)
    {
      var verdict := Admit(bearer, message, t);
      reply := if verdict.Verified? then Accepted else RefusalReply(message, verdict);
    }

    /** The handshake of `api_ws_relay`. */
    method OpenLink(link: nat, claimed: Option<string>, token: string, now: real, text: string) returns (open: bool)
      requires Valid()
      modifies this`links, vault
      ensures Valid()
      ensures Model() == LinkOpened(Setting(), old(Model()), link, claimed, token, now, text)
    {
      var node := auth.CheckToken(token, now, text);
      if node.None? || node.value == "" || (claimed.Some? && claimed.value != node.value) {
        return false;
      }
      links := links[link := node.value];
      open := true;
    }

    /** One later frame of an open link. */
    method ReceiveFrame(link: nat, message: Json, now: real, saveTime: real, k: Stamps)
      requires Valid() && link in links
      modifies this`links, vault, trust
      ensures Valid()
      ensures Model() == LinkFrame(Setting(), old(Model()), link, message, now, saveTime, k)
    {
      var verdict := trust.VerifyMessage(message, Some(links[link]), now, saveTime);
      match verdict {
        case Rejected(_) =>
        case Failed => links := links - {link};
        case Verified(signer) =>
          var error := vault.AppendEvent(SignedEvent(SignedParts(signer, message), k), k.applied);
      }
    }

    /** `api_mesh_prepare_revoke`, for the owner. */
    method ApiPrepareRevoke(nodeId: Json, challenge: string, now: real) returns (reply: Challenges.Reply)
      requires Valid()
      modifies this`challenges, vault
      ensures Valid()
      ensures (Model(), reply) == PrepareRequest(Setting(), old(Model()), nodeId, challenge, now)
    {
      if !nodeId.Str? {
        return Challenges.NotFound;
      }
      vault.NoteAudit();
      if nodeId.s !in vault.state.nodes {
        return Challenges.NotFound;
      }
      challenges := challenges[challenge := Challenges.Challenge(nodeId.s, Challenges.Phrase(nodeId.s), now + Challenges.LIFETIME)];
      reply := Challenges.Done;
    }

    /** `api_mesh_revoke`, for the owner. */
    method ApiRevoke(c: Challenges.Confirmation, now: real, text: string) returns (reply: Challenges.Reply)
      requires Valid()
      modifies this`challenges, vault, auth, auth.identity
      ensures Valid()
      ensures (Model(), reply) == RevokeRequest(old(Model()), c, now, text)
    {
      if !c.challenge.Str? || c.challenge.s !in challenges {
        return Challenges.Forbidden;
      }
      var record := challenges[c.challenge.s];
      challenges := challenges - {c.challenge.s};
      if record.expiresAt < now || c.nodeId != Str(record.nodeId) {
        return Challenges.Forbidden;
      }
      if c.phrase != Str(record.phrase) || c.meshPhrase != Str("CONFIRM MESH REVOKE") {
        return Challenges.Mismatch;
      }
      var changed := auth.RevokeNode(record.nodeId, text);
      reply := if changed then Challenges.Done else Challenges.NotFound;
    }
  }
}
