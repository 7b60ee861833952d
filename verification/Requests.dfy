/** What a request does to the whole server, step by step in the order of its handler. */
module Requests {
  import opened Text
  import opened Json
  import opened Results
  import opened Signing
  import opened Trust
  import opened Chain
  import opened Paths
  import opened Vault
  import opened Handlers
  import opened Auth
  import opened Decoding
  import Challenges

  /** What is fixed for a server: the hash, the trust settings, the vault root, and how a file
      content is read by others. */
  datatype Setup = Setup(hash: string -> string, trust: Config, root: Path, reading: string -> FileText)

  /** The handlers that check the token from the headers and then wait for the body. */
  datatype Api = RelayApi | TaskApi | FileApi

  /** A request that waits for its body, and the node its token was admitted for. */
  datatype Waiting = Waiting(api: Api, node: string)

  /** `pending` holds the requests that wait for their body, and `links` the node that each open
      WebSocket relay link was pinned to at its handshake. */
  datatype ServerState = ServerState(mesh: Mesh, nonces: seq<Entry>, challenges: Challenges.Open,
                                     pending: map<nat, Waiting>, links: map<nat, string>)

  /** What a signed request without a body reads from the system. */
  datatype Moment = Moment(checkedAt: real, verifiedAt: real, savedAt: real, text: string)

  function WithVault(s: ServerState, vault: Vault): ServerState {
    s.(mesh := s.mesh.(vault := vault))
  }

  /** The parts of an accepted envelope. */
  datatype Signed = Signed(node: string, op: string, payload: map<string, Json>, sig: string)

  function SignedParts(node: string, message: Json): Signed {
    match message
    case Obj(f) =>
      Signed(node, if "op" in f && f["op"].Str? then f["op"].s else "",
             if "payload" in f && f["payload"].Obj? then f["payload"].fields else map[],
             if "sig" in f && f["sig"].Str? then f["sig"].s else "")
    case _ => Signed(node, "", map[], "")
  }

  /** The event of an envelope. */
  function SignedEvent(p: Signed, k: Stamps): Event {
    Event(k.eventId, k.ts, p.node, p.op, p.payload, p.sig)
  }

  /** The first half of a signed request with a body, up to the wait: the token is checked once, and
      its node kept. */
  function Arrived(c: Setup, s: ServerState, request: nat, api: Api, bearer: string, now: real, text: string): ServerState {
    match VerifyToken(c.hash, s.mesh, bearer, now)
    case None => s
    case Some(node) =>
      var checked := s.(mesh := TokenChecked(c.hash, s.mesh, bearer, now, text));
      if node == "" then checked else checked.(pending := s.pending[request := Waiting(api, node)])
  }

  predicate Waits(s: ServerState, request: nat, api: Api) {
    request in s.pending && s.pending[request].api == api
  }

  /** The second half up to the verdict: the body is an envelope for the node that was kept. */
  function Received(c: Setup, s: ServerState, request: nat, message: Json, now: real, saveTime: real): (ServerState, Verdict)
    requires request in s.pending
  {
    var (nonces, verdict) := Verify(c.trust, s.nonces, message, Some(s.pending[request].node), now, saveTime);
    (s.(nonces := nonces, pending := s.pending - {request}), verdict)
  }

  /** The gate of a signed request without a body: token and envelope in one step. */
  function Gated(c: Setup, s: ServerState, bearer: string, message: Json, t: Moment): (ServerState, Verdict) {
    match VerifyToken(c.hash, s.mesh, bearer, t.checkedAt)
    case None => (s, Rejected(InvalidNode))
    case Some(node) =>
      var checked := s.(mesh := TokenChecked(c.hash, s.mesh, bearer, t.checkedAt, t.text));
      if node == "" then (checked, Rejected(InvalidNode))
      else
        var (nonces, verdict) := Verify(c.trust, s.nonces, message, Some(node), t.verifiedAt, t.savedAt);
        (checked.(nonces := nonces), verdict)
  }

  /** A body that is not an object is refused before it is verified. */
  function RefusalReply(message: Json, verdict: Verdict): Reply {
    if !message.Obj? then BadRequest else if verdict.Failed? then ServerError else Forbidden
  }

  /** `api_relay` once the body is there. */
  function RelayRequest(c: Setup, s: ServerState, request: nat, message: Json, now: real, saveTime: real, k: Stamps): (ServerState, Reply)
    requires request in s.pending
  {
    var (g, verdict) := Received(c, s, request, message, now, saveTime);
    if !verdict.Verified? then (g, RefusalReply(message, verdict))
    else
      var (vault, reply) := RelayCall(c.hash, g.mesh.vault, SignedEvent(SignedParts(verdict.nodeId, message), k), k.applied);
      (WithVault(g, vault), reply)
  }

  /** `api_collab_task` once the body is there. */
  function TaskRequest(c: Setup, s: ServerState, request: nat, message: Json, now: real, saveTime: real, k: Stamps): (ServerState, Reply)
    requires request in s.pending
  {
    var (g, verdict) := Received(c, s, request, message, now, saveTime);
    if !verdict.Verified? then (g, RefusalReply(message, verdict))
    else
      var p := SignedParts(verdict.nodeId, message);
      if p.op != "task" then (g, Forbidden)
      else
        var (vault, reply) := TaskCall(c.hash, g.mesh.vault, p.payload, p.node, p.sig, k);
        (WithVault(g, vault), reply)
  }

  /** What the file handler does with a payload: read, write, or nothing. */
  datatype FileAction = Read | Write(path: Json, content: Json) | Neither

  function FileActionOf(payload: map<string, Json>): FileAction {
    var action := if "action" in payload then payload["action"] else Str("read");
    if action == Str("read") then Read
    else if action == Str("write") then Write(Get(payload, "path"), if "content" in payload then payload["content"] else Str(""))
    else Neither
  }

  /** The content as it is written, and what others read from it. */
  function WrittenText(c: Setup, content: string): FileText {
    c.reading(content).(chars := content)
  }

  /** A write whose path or content is not a string is refused like a forbidden path. */
  function WriteRequest(c: Setup, v: Vault, path: Json, content: Json, node: string, sig: string, k: Stamps): (Vault, Reply) {
    if path.Str? && content.Str? then FileCall(c.hash, c.root, v, path.s, WrittenText(c, content.s), node, sig, k)
    else
      var clean := EnsureClean(c.hash, v);
      if clean.error.Some? then (Commit(v, clean), Unavailable) else (v, Forbidden)
  }

  /** `api_collab_file` once the body is there. */
  function FileRequest(c: Setup, s: ServerState, request: nat, message: Json, now: real, saveTime: real, k: Stamps): (ServerState, Reply)
    requires request in s.pending
  {
    var (g, verdict) := Received(c, s, request, message, now, saveTime);
    if !verdict.Verified? then (g, RefusalReply(message, verdict))
    else
      var p := SignedParts(verdict.nodeId, message);
      if p.op != "file_update" then (g, Forbidden)
      else
        match FileActionOf(p.payload)
        case Read => (g, FileRead)
        case Neither => (g, BadRequest)
        case Write(path, content) =>
          var (vault, reply) := WriteRequest(c, g.mesh.vault, path, content, p.node, p.sig, k);
          (WithVault(g, vault), reply)
  }

  /** `api_collab_ledger` up to its answer: the gate for the envelope it builds. */
  function LedgerRequest(c: Setup, s: ServerState, bearer: string, message: Json, t: Moment): (ServerState, Reply) {
    var (g, verdict) := Gated(c, s, bearer, message, t);
    (g, if verdict.Verified? then Accepted else RefusalReply(message, verdict))
  }

  /** `api_collab_export`, once the caller may write. */
  function ExportRequest(c: Setup, s: ServerState, source: map<string, Json>, localNode: string, k: Stamps): (ServerState, Reply) {
    var (vault, reply) := ExportCall(c.hash, s.mesh.vault, source, localNode, k);
    (WithVault(s, vault), reply)
  }

  // ---- WebSocket relay links ----

  /** The handshake of `api_ws_relay`: the token is checked once, and its node pinned to the link. */
  function LinkOpened(c: Setup, s: ServerState, link: nat, claimed: Option<string>, token: string, now: real, text: string): ServerState {
    match VerifyToken(c.hash, s.mesh, token, now)
    case None => s
    case Some(node) =>
      var checked := s.(mesh := TokenChecked(c.hash, s.mesh, token, now, text));
      if node == "" || (claimed.Some? && claimed.value != node) then checked else checked.(links := s.links[link := node])
  }

  /** One later frame: an envelope for the pinned node.  An error in checking it ends the link. */
  function LinkFrame(c: Setup, s: ServerState, link: nat, message: Json, now: real, saveTime: real, k: Stamps): ServerState
    requires link in s.links
  {
    var node := s.links[link];
    var (nonces, verdict) := Verify(c.trust, s.nonces, message, Some(node), now, saveTime);
    var after := s.(nonces := nonces);
    match verdict
    case Rejected(_) => after
    case Failed => after.(links := s.links - {link})
    case Verified(signer) => WithVault(after, RelayCall(c.hash, s.mesh.vault, SignedEvent(SignedParts(signer, message), k), k.applied).0)
  }

  // ---- revocation and restart ----

  function PrepareRequest(c: Setup, s: ServerState, nodeId: Json, challenge: string, now: real): (ServerState, Challenges.Reply) {
    var (mesh, open, reply) := Challenges.Prepared(c.hash, s.mesh, s.challenges, nodeId, challenge, now);
    (s.(mesh := mesh, challenges := open), reply)
  }

  function RevokeRequest(s: ServerState, confirmation: Challenges.Confirmation, now: real, text: string): (ServerState, Challenges.Reply) {
    var (mesh, open, reply) := Challenges.Confirmed(s.mesh, s.challenges, confirmation, now, text);
    (s.(mesh := mesh, challenges := open), reply)
  }

  /** A restart: stores and nonces are read back; challenges, waiting requests and links are gone. */
  function ServerRestarted(s: ServerState, readable: bool, text: string): ServerState {
    ServerState(RestartedMesh(s.mesh, readable, text), Reloaded(s.nonces), map[], map[], map[])
  }

  // ---- the requests on the fields of their messages ----

  /** A message that verifies has these. */
  predicate HasParts(message: Json) {
    message.Obj? && Get(message.fields, "op").Str? && Get(message.fields, "sig").Str? && Get(message.fields, "payload").Obj?
  }

  /** A token that authenticates as a named node pins the request to it; any other pins nothing.  Either way the
      rest of the server is as the token check leaves it. */
  lemma ArrivedIff(c: Setup, s: ServerState, request: nat, api: Api, bearer: string, now: real, text: string)
    ensures var n, after := VerifyToken(c.hash, s.mesh, bearer, now), Arrived(c, s, request, api, bearer, now, text);
            after == s.(mesh := TokenChecked(c.hash, s.mesh, bearer, now, text),
                        pending := if n.Some? && n.value != "" then s.pending[request := Waiting(api, n.value)] else s.pending)
  {
    hide VerifyToken;
  }

  /** A link is opened exactly for a token that authenticates as a named node, the claimed one if any. */
  lemma OpenedIff(c: Setup, s: ServerState, link: nat, claimed: Option<string>, token: string, now: real, text: string)
    ensures var n, after := VerifyToken(c.hash, s.mesh, token, now), LinkOpened(c, s, link, claimed, token, now, text);
            after == s.(mesh := TokenChecked(c.hash, s.mesh, token, now, text),
                        links := if n.Some? && n.value != "" && (claimed.Some? ==> claimed == n) then s.links[link := n.value] else s.links)
  {
    hide VerifyToken;
  }

  /** A body takes its request off the list and, of the rest, changes the nonces and the vault only. */
  lemma BodyTaken(c: Setup, s: ServerState, id: nat, message: Json, now: real, saveTime: real, k: Stamps)
    requires id in s.pending
    ensures var nonces := Verify(c.trust, s.nonces, message, Some(s.pending[id].node), now, saveTime).0;
            var taken := (v: Vault) => s.(mesh := s.mesh.(vault := v), nonces := nonces, pending := s.pending - {id});
            var (relayed, stored, written) := (RelayRequest(c, s, id, message, now, saveTime, k).0,
                                               TaskRequest(c, s, id, message, now, saveTime, k).0,
                                               FileRequest(c, s, id, message, now, saveTime, k).0);
            relayed == taken(relayed.mesh.vault) && stored == taken(stored.mesh.vault) && written == taken(written.mesh.vault)
  {
    hide Verify, RelayCall, TaskCall, WriteRequest, SignedParts, SignedEvent, FileActionOf;
  }

  /** A body that does not verify changes nothing else: no nonce, no file, no row. */
  lemma BodyRefused(c: Setup, s: ServerState, id: nat, message: Json, now: real, saveTime: real, k: Stamps)
    requires id in s.pending && !Verify(c.trust, s.nonces, message, Some(s.pending[id].node), now, saveTime).1.Verified?
    ensures var verdict := Verify(c.trust, s.nonces, message, Some(s.pending[id].node), now, saveTime).1;
            var refused := (s.(pending := s.pending - {id}),
                            if !message.Obj? then BadRequest else if verdict == Failed then ServerError else Forbidden);
            && RelayRequest(c, s, id, message, now, saveTime, k) == refused
            && TaskRequest(c, s, id, message, now, saveTime, k) == refused
            && FileRequest(c, s, id, message, now, saveTime, k) == refused
  {
    hide Screen, Kept, RelayCall, TaskCall, WriteRequest, SignedParts, SignedEvent, FileActionOf;
  }

  /** A signed request without a body is accepted exactly when its token authenticates as a named node and its
      envelope verifies for that node. */
  lemma LedgerIff(c: Setup, s: ServerState, bearer: string, message: Json, t: Moment)
    ensures var n := VerifyToken(c.hash, s.mesh, bearer, t.checkedAt);
            var (after, reply) := LedgerRequest(c, s, bearer, message, t);
            if n.None? || n.value == "" then
              reply != Accepted && after == s.(mesh := TokenChecked(c.hash, s.mesh, bearer, t.checkedAt, t.text))
            else
              var (nonces, verdict) := Verify(c.trust, s.nonces, message, n, t.verifiedAt, t.savedAt);
              && (reply == Accepted <==> verdict.Verified?)
              && after == s.(mesh := TokenChecked(c.hash, s.mesh, bearer, t.checkedAt, t.text), nonces := nonces)
  {
    hide Verify, VerifyToken;
  }

  /** A restart keeps the nonces and forgets challenges, waiting requests and links. */
  lemma RestartForgets(s: ServerState, readable: bool, text: string)
    ensures var after := ServerRestarted(s, readable, text);
            && multiset(after.nonces) == multiset(s.nonces) && ByNonce(after.nonces)
            && after.pending == map[] && after.links == map[] && after.challenges == map[]
            && after.mesh == s.mesh.(vault := after.mesh.vault)
  {
    hide Reloaded;
    ReloadedOrder(s.nonces);
  }

  /** The event of a message of `node`. */
  function EventSent(node: string, message: Json, k: Stamps): Event
    requires HasParts(message)
  {
    var f := message.fields;
    Event(k.eventId, k.ts, node, f["op"].s, f["payload"].fields, f["sig"].s)
  }

  lemma PartsSent(node: string, message: Json, k: Stamps)
    requires HasParts(message)
    ensures SignedEvent(SignedParts(node, message), k) == EventSent(node, message, k)
  {
  }

  /** A verified relay body is relayed as it stands. */
  lemma RelaySent(c: Setup, s: ServerState, id: nat, message: Json, now: real, saveTime: real, k: Stamps)
    requires HasParts(message) && id in s.pending && Received(c, s, id, message, now, saveTime).1.Verified?
    ensures var (g, verdict) := Received(c, s, id, message, now, saveTime);
            var (vault, reply) := RelayCall(c.hash, g.mesh.vault, EventSent(verdict.nodeId, message, k), k.applied);
            RelayRequest(c, s, id, message, now, saveTime, k) == (WithVault(g, vault), reply)
  {
    hide Received, RelayCall, SignedEvent, SignedParts, EventSent;
    PartsSent(Received(c, s, id, message, now, saveTime).1.nodeId, message, k);
  }

  /** So is a verified frame; a refused one changes nothing, and an error in the check ends the link. */
  lemma FrameSent(c: Setup, s: ServerState, link: nat, message: Json, now: real, saveTime: real, k: Stamps)
    requires HasParts(message) && link in s.links
    ensures var (nonces, verdict) := Verify(c.trust, s.nonces, message, Some(s.links[link]), now, saveTime);
            var after := LinkFrame(c, s, link, message, now, saveTime, k);
            && (verdict.Verified? ==>
                  after == WithVault(s.(nonces := nonces), RelayCall(c.hash, s.mesh.vault, EventSent(verdict.nodeId, message, k), k.applied).0))
            && (verdict.Rejected? ==> after == s.(nonces := nonces))
            && (verdict.Failed? ==> after == s.(nonces := nonces, links := s.links - {link}))
  {
    hide Verify, RelayCall, SignedEvent, SignedParts, EventSent;
    var verdict := Verify(c.trust, s.nonces, message, Some(s.links[link]), now, saveTime).1;
    if verdict.Verified? {
      PartsSent(verdict.nodeId, message, k);
    }
  }

  /** A verified task body is refused unless its operation is `task`, and else is a task request of its payload. */
  lemma TaskSent(c: Setup, s: ServerState, id: nat, message: Json, now: real, saveTime: real, k: Stamps)
    requires HasParts(message) && id in s.pending && Received(c, s, id, message, now, saveTime).1.Verified?
    ensures var (g, verdict) := Received(c, s, id, message, now, saveTime);
            var f := message.fields;
            var (vault, reply) := TaskCall(c.hash, g.mesh.vault, f["payload"].fields, verdict.nodeId, f["sig"].s, k);
            TaskRequest(c, s, id, message, now, saveTime, k) ==
            if f["op"] != Str("task") then (g, Forbidden) else (WithVault(g, vault), reply)
  {
    hide Received, TaskCall;
  }

  /** What a file body must come to.  Only the action `write` changes anything, and only with an accepted name, a
      text that is not too long, and a verifying chain: then the file at the path holds exactly the text, which is
      empty when none is given, and one row names it. */
  ghost predicate FileDone(c: Setup, v: Vault, after: Vault, reply: Reply, payload: map<string, Json>, node: string, sig: string, k: Stamps) {
    var action, name := Get(payload, "action"), Get(payload, "path");
    var content := if "content" in payload then payload["content"] else Str("");
    if "action" !in payload || action == Str("read") then reply == FileRead && after == v
    else if action != Str("write") then reply == BadRequest && after == v
    else if !Verifies(c.hash, v.disk.ledger, v.disk.audit) then
      && reply == Unavailable && after.disk.ledger == v.disk.ledger && after.disk.other == v.disk.other
      && after.disk.dirs == v.disk.dirs && after.state.tasks == v.state.tasks && after.state.messages == v.state.messages
    else if !name.Str? || !content.Str? || SafePath(c.root, name.s).None? || c.reading(content.s).utf8Length > 1_048_576 then
      reply == Forbidden && after == v
    else
      var path := SafePath(c.root, name.s).value;
      && reply == Accepted && |c.root| <= |path|
      && after.disk.other == v.disk.other[path[|c.root|..] := content.s]
      && after.disk.ledger == v.disk.ledger + WrittenLines(FileRow(node, Join(path[|c.root|..], '/'), sig, k))
      && after.disk.dirs == v.disk.dirs && after.state.tasks == v.state.tasks && after.state.messages == v.state.messages
  }

  lemma WriteDone(c: Setup, v: Vault, payload: map<string, Json>, node: string, sig: string, k: Stamps)
    requires Get(payload, "action") == Str("write")
    ensures var content := if "content" in payload then payload["content"] else Str("");
            var (after, reply) := WriteRequest(c, v, Get(payload, "path"), content, node, sig, k);
            FileDone(c, v, after, reply, payload, node, sig, k)
  {
    hide Verifies, SafePath, FileRow, WrittenLines, FileCall;
    var name, content := Get(payload, "path"), if "content" in payload then payload["content"] else Str("");
    PerformOne(v.disk, SaveState(v.state.(tampered := true)));
    if name.Str? && content.Str? {
      if Verifies(c.hash, v.disk.ledger, v.disk.audit) {
        FileCallWrites(c.hash, c.root, v, name.s, WrittenText(c, content.s), node, sig, k);
      } else {
        FileCallRefused(c.hash, c.root, v, name.s, WrittenText(c, content.s), node, sig, k);
      }
    }
  }

  /** A verified file body is refused unless its operation is `file_update`, and else does what its payload asks. */
  lemma FileSent(c: Setup, s: ServerState, id: nat, message: Json, now: real, saveTime: real, k: Stamps)
    requires HasParts(message) && id in s.pending && Received(c, s, id, message, now, saveTime).1.Verified?
    ensures var (g, verdict) := Received(c, s, id, message, now, saveTime);
            var (after, reply) := FileRequest(c, s, id, message, now, saveTime, k);
            var f := message.fields;
            && after == WithVault(g, after.mesh.vault)
            && if f["op"] != Str("file_update") then reply == Forbidden && after == g
               else FileDone(c, g.mesh.vault, after.mesh.vault, reply, f["payload"].fields, verdict.nodeId, f["sig"].s, k)
  {
    hide Received, WriteRequest, Verifies, SafePath, FileRow, WrittenLines;
    var (g, verdict) := Received(c, s, id, message, now, saveTime);
    var payload := message.fields["payload"].fields;
    if Get(payload, "action") == Str("write") {
      WriteDone(c, g.mesh.vault, payload, verdict.nodeId, message.fields["sig"].s, k);
    }
  }
}
