/** Enrolment: join codes, tokens, certificates and the store of revoked nodes. */
module Auth {
  import opened Text
  import opened Results
  import opened Vault
  import opened Handlers

  /** A record of the join-code store; the code itself is only kept as a hash. */
  datatype Code = Code(hash: string, nodeId: Option<string>, expiresAt: real, used: bool)

  datatype Token = Token(nodeId: string, hash: string, expiresAt: real, revoked: bool)

  /** A certificate as its issuer signed it; `nodeId` is part of what is signed. */
  datatype Cert = Cert(nodeId: string, expiresAt: real, revoked: bool)

  const VALIDITY := 86_400.0
  const TOKEN_LIFETIME := 86_400.0
  const MAX_TTL := 86_400

  /** The vault and the four stores under `.auth`; the certificates in memory are those on disk. */
  datatype Mesh = Mesh(vault: Vault, codes: seq<Code>, tokens: seq<Token>, revoked: set<string>, certs: map<string, Cert>)

  const EMPTY_MESH := Mesh(Vault(DEFAULT_STATE, EMPTY_DISK), [], [], {}, map[])

  datatype AuthError = InvalidNodeId | InvalidTtl | InvalidCode | AlreadyRegistered | CertificateExists

  predicate NodeIdChar(c: char) {
    'a' <= c <= 'z' || 'A' <= c <= 'Z' || '0' <= c <= '9' || c == '_' || c == '-'
  }

  predicate ValidNodeId(id: string) {
    3 <= |id| <= 64 && forall c | c in id :: NodeIdChar(c)
  }

  // ---- certificates ----

  predicate CertLive(certs: map<string, Cert>, nodeId: string, now: real) {
    nodeId in certs && certs[nodeId].nodeId == nodeId && !certs[nodeId].revoked && certs[nodeId].expiresAt > now
  }

  predicate CanIssue(certs: map<string, Cert>, nodeId: string) {
    nodeId in certs ==> certs[nodeId].revoked
  }

  function CertRevoked(certs: map<string, Cert>, nodeId: string): map<string, Cert> {
    if nodeId in certs then certs[nodeId := certs[nodeId].(revoked := true)] else certs
  }

  // ---- invites ----

  predicate Usable(c: Code, now: real) {
    !c.used && c.expiresAt > now
  }

  function UsableCodes(codes: seq<Code>, now: real): seq<Code> {
    if codes == [] then []
    else
      var rest := UsableCodes(codes[..|codes| - 1], now);
      var last := codes[|codes| - 1];
      if Usable(last, now) then rest + [last] else rest
  }

  function CheckInvite(nodeId: Option<string>, ttl: int): Option<AuthError> {
    if nodeId.Some? && !ValidNodeId(nodeId.value) then Some(InvalidNodeId)
    else if ttl < 1 || ttl > MAX_TTL then Some(InvalidTtl)
    else None
  }

  /** `create_invite`: the stores after a code for `nodeId` is issued. */
  function Invited(h: string -> string, m: Mesh, nodeId: Option<string>, ttl: int, code: string, now: real): Mesh {
    m.(codes := UsableCodes(m.codes, now) + [Code(h(code), nodeId, now + ttl as real, false)])
  }

  // ---- join ----

  /** The expiry a joining node names: none, one that does not parse, or a time. */
  datatype Requested = NotGiven | Unreadable | Expiry(at: real)

  predicate CodeMatches(h: string -> string, c: Code, nodeId: string, code: string, requested: Requested, now: real) {
    && !c.used && c.hash == h(code) && c.expiresAt > now
    && (c.nodeId == None || c.nodeId == Some(nodeId))
    && (match requested
        case NotGiven => true
        case Unreadable => false
        case Expiry(at) => at > now && at == c.expiresAt)
  }

  /** The first code that matches, if any. */
  function FindCode(h: string -> string, codes: seq<Code>, nodeId: string, code: string, requested: Requested, now: real): (i: Option<nat>)
    ensures i.Some? ==> i.value < |codes| && CodeMatches(h, codes[i.value], nodeId, code, requested, now)
  {
    if codes == [] then None
    else if CodeMatches(h, codes[0], nodeId, code, requested, now) then Some(0)
    else
      match FindCode(h, codes[1..], nodeId, code, requested, now)
      case None => None
      case Some(j) => Some(j + 1)
  }

  function LiveTokens(tokens: seq<Token>, now: real): seq<Token> {
    if tokens == [] then []
    else
      var rest := LiveTokens(tokens[..|tokens| - 1], now);
      var last := tokens[|tokens| - 1];
      if !last.revoked && last.expiresAt > now then rest + [last] else rest
  }

  /** The clock as one join reads it: when codes are checked, when the certificate is issued, when
      the token is; and the text of the last. */
  datatype Times = Times(checked: real, issued: real, tokened: real, text: string)

  predicate Ordered(t: Times) {
    t.checked <= t.issued <= t.tokened
  }

  function CheckJoin(h: string -> string, m: Mesh, nodeId: string, code: string, requested: Requested, t: Times): Option<AuthError> {
    if !ValidNodeId(nodeId) || code == "" then Some(InvalidCode)
    else if FindCode(h, m.codes, nodeId, code, requested, t.checked).None? then Some(InvalidCode)
    else if nodeId in m.vault.state.nodes then Some(AlreadyRegistered)
    else if !CanIssue(m.certs, nodeId) then Some(CertificateExists)
    else None
  }

  /** The stores after the first `k` of the four writes of `join` with a code that passes:
      certificate, used code, token, state file. */
  function JoinedUpTo(h: string -> string, m: Mesh, nodeId: string, code: string, requested: Requested, token: string, t: Times, k: nat): Mesh
    requires CheckJoin(h, m, nodeId, code, requested, t).None?
  {
    var i := FindCode(h, m.codes, nodeId, code, requested, t.checked).value;
    Mesh(
      if k >= 4 then Commit(m.vault, Register(m.vault.state, nodeId, "collab", 86_400, t.text)) else m.vault,
      if k >= 2 then m.codes[i := m.codes[i].(used := true)] else m.codes,
      if k >= 3 then LiveTokens(m.tokens, t.tokened) + [Token(nodeId, h(token), t.tokened + TOKEN_LIFETIME, false)] else m.tokens,
      m.revoked,
      if k >= 1 then m.certs[nodeId := Cert(nodeId, t.issued + VALIDITY, false)] else m.certs)
  }

  function Joined(h: string -> string, m: Mesh, nodeId: string, code: string, requested: Requested, token: string, t: Times): Mesh
    requires CheckJoin(h, m, nodeId, code, requested, t).None?
  {
    JoinedUpTo(h, m, nodeId, code, requested, token, t, 4)
  }

  // ---- tokens ----

  predicate Authenticates(h: string -> string, m: Mesh, r: Token, token: string, now: real) {
    && r.expiresAt > now && !r.revoked && r.hash == h(token)
    && r.nodeId in m.vault.state.nodes && m.vault.state.nodes[r.nodeId].standing == Active
    && r.nodeId !in m.revoked && CertLive(m.certs, r.nodeId, now)
  }

  /** `verify_token`: the node of the first record that authenticates. */
  function VerifyToken(h: string -> string, m: Mesh, token: string, now: real): (n: Option<string>)
    ensures n.Some? ==> exists r | r in m.tokens :: r.nodeId == n.value && Authenticates(h, m, r, token, now)
    ensures n.None? ==> token == "" || forall r | r in m.tokens :: !Authenticates(h, m, r, token, now)
  {
    if token == "" then None else FirstAuthenticating(h, m, m.tokens, token, now)
  }

  function FirstAuthenticating(h: string -> string, m: Mesh, tokens: seq<Token>, token: string, now: real): (n: Option<string>)
    ensures n.Some? ==> exists r | r in tokens :: r.nodeId == n.value && Authenticates(h, m, r, token, now)
    ensures n.None? ==> forall r | r in tokens :: !Authenticates(h, m, r, token, now)
  {
    if tokens == [] then None
    else
      assert tokens == [tokens[0]] + tokens[1..];
      if Authenticates(h, m, tokens[0], token, now) then Some(tokens[0].nodeId)
      else FirstAuthenticating(h, m, tokens[1..], token, now)
  }

  /** A successful check also touches the node. */
  function TokenChecked(h: string -> string, m: Mesh, token: string, now: real, text: string): Mesh {
    match VerifyToken(h, m, token, now)
    case None => m
    case Some(n) => m.(vault := Commit(m.vault, Touch(m.vault.state, n, text)))
  }

  // ---- revocation ----

  function TokensRevoked(tokens: seq<Token>, nodeId: string): (r: seq<Token>)
    ensures |r| == |tokens|
  {
    seq(|tokens|, i requires 0 <= i < |tokens| => if tokens[i].nodeId == nodeId then tokens[i].(revoked := true) else tokens[i])
  }

  /** The stores after the first `k` of the four writes of `revoke_node`: state file, certificates,
      revoked store, tokens. */
  function RevokedUpTo(m: Mesh, nodeId: string, k: nat, text: string): Mesh {
    var m1 := if k >= 1 then m.(vault := Commit(m.vault, Revoke(m.vault.state, nodeId, text))) else m;
    var m2 := if k >= 2 then m1.(certs := CertRevoked(m.certs, nodeId)) else m1;
    var m3 := if k >= 3 then m2.(revoked := m.revoked + {nodeId}) else m2;
    if k >= 4 then m3.(tokens := TokensRevoked(m.tokens, nodeId)) else m3
  }

  /** `revoke_node`; it does nothing for a node the vault does not know. */
  function RevokedNode(m: Mesh, nodeId: string, text: string): Mesh {
    if nodeId in m.vault.state.nodes then RevokedUpTo(m, nodeId, 4, text) else m
  }

  // ---- restarts ----

  /** `sorted(nodes)`, the order in which the revoked store lists them. */
  function SortedNames(s: set<string>): seq<string> {
    if s == {} then [] else var k := Least(s); [k] + SortedNames(s - {k})
  }

  /** A restart; with an unreadable state file the vault starts from the default state. */
  function RestartedMesh(m: Mesh, readable: bool, text: string): Mesh {
    var disk := if readable then m.vault.disk else m.vault.disk.(state := None);
    m.(vault := Restarted(disk, SortedNames(m.revoked), text))
  }

  // ---- facts about the stores ----

  /** A certificate is good from its issue until it expires or is revoked, and nothing else changes
      with it; a second one is refused until then. */
  lemma CertificateLife(certs: map<string, Cert>, n: string, issued: real, now: real, other: string)
    ensures var issuedCerts := certs[n := Cert(n, issued + VALIDITY, false)];
            && (CertLive(issuedCerts, n, now) <==> now < issued + VALIDITY) && !CanIssue(issuedCerts, n)
            && !CertLive(CertRevoked(issuedCerts, n), n, now) && CanIssue(CertRevoked(issuedCerts, n), n)
            && (other != n ==> CertLive(CertRevoked(issuedCerts, n), other, now) == CertLive(certs, other, now))
  {
  }

  /** A code is found exactly when one matches, and it is the first that does. */
  lemma {:induction false} FindCodeFirst(h: string -> string, codes: seq<Code>, nodeId: string, code: string, requested: Requested, now: real)
    ensures var i := FindCode(h, codes, nodeId, code, requested, now);
            && (i.Some? <==> exists c | c in codes :: CodeMatches(h, c, nodeId, code, requested, now))
            && (i.Some? ==> forall j | 0 <= j < i.value :: !CodeMatches(h, codes[j], nodeId, code, requested, now))
  {
    if codes != [] {
      FindCodeFirst(h, codes[1..], nodeId, code, requested, now);
      assert codes == [codes[0]] + codes[1..];
    }
  }

  lemma {:induction false} UsableFacts(codes: seq<Code>, now: real)
    ensures forall c :: c in UsableCodes(codes, now) <==> c in codes && Usable(c, now)
  {
    if codes != [] {
      UsableFacts(codes[..|codes| - 1], now);
      assert codes == codes[..|codes| - 1] + [codes[|codes| - 1]];
    }
  }

  lemma {:induction false} LiveFacts(tokens: seq<Token>, now: real)
    ensures forall r :: r in LiveTokens(tokens, now) <==> r in tokens && !r.revoked && r.expiresAt > now
  {
    if tokens != [] {
      LiveFacts(tokens[..|tokens| - 1], now);
      assert tokens == tokens[..|tokens| - 1] + [tokens[|tokens| - 1]];
    }
  }

  lemma {:induction false} SortedNamesFacts(s: set<string>)
    ensures forall n :: n in SortedNames(s) <==> n in s
  {
    if s != {} {
      SortedNamesFacts(s - {Least(s)});
    }
  }

  // ---- who authenticates ----

  /** The record is one of `token` that is neither revoked nor expired, and its node is active in the vault,
      not in the revoked store, and holds a certificate of its own that is neither revoked nor expired. */
  ghost predicate Good(h: string -> string, m: Mesh, r: Token, token: string, now: real) {
    && r.hash == h(token) && !r.revoked && now < r.expiresAt
    && r.nodeId in m.vault.state.nodes && m.vault.state.nodes[r.nodeId].standing == Active && r.nodeId !in m.revoked
    && r.nodeId in m.certs && m.certs[r.nodeId].nodeId == r.nodeId && !m.certs[r.nodeId].revoked && now < m.certs[r.nodeId].expiresAt
  }

  lemma {:induction false} FirstIff(h: string -> string, m: Mesh, tokens: seq<Token>, token: string, now: real)
    ensures var n := FirstAuthenticating(h, m, tokens, token, now);
            && (n.None? <==> forall i | 0 <= i < |tokens| :: !Good(h, m, tokens[i], token, now))
            && (n.Some? ==> exists i | 0 <= i < |tokens| ::
                  tokens[i].nodeId == n.value && Good(h, m, tokens[i], token, now) && forall j | 0 <= j < i :: !Good(h, m, tokens[j], token, now))
  {
    if tokens != [] && !Good(h, m, tokens[0], token, now) {
      FirstIff(h, m, tokens[1..], token, now);
      var n := FirstAuthenticating(h, m, tokens[1..], token, now);
      if n.Some? {
        var i :| 0 <= i < |tokens[1..]| && tokens[1..][i].nodeId == n.value && Good(h, m, tokens[1..][i], token, now)
                 && forall j | 0 <= j < i :: !Good(h, m, tokens[1..][j], token, now);
        assert tokens[i + 1] == tokens[1..][i];
        forall j | 0 <= j < i + 1 ensures !Good(h, m, tokens[j], token, now) {
          assert j > 0 ==> tokens[j] == tokens[1..][j - 1];
        }
      } else {
        forall i | 0 <= i < |tokens| ensures !Good(h, m, tokens[i], token, now) {
          assert i > 0 ==> tokens[i] == tokens[1..][i - 1];
        }
      }
    }
  }

  /** A token authenticates exactly when it is not empty and some record of it is good, and then as the node
      of the first such record. */
  lemma TokenIff(h: string -> string, m: Mesh, token: string, now: real)
    ensures var n := VerifyToken(h, m, token, now);
            && (n.None? <==> token == "" || forall i | 0 <= i < |m.tokens| :: !Good(h, m, m.tokens[i], token, now))
            && (n.Some? ==> exists i | 0 <= i < |m.tokens| ::
                  m.tokens[i].nodeId == n.value && Good(h, m, m.tokens[i], token, now)
                  && forall j | 0 <= j < i :: !Good(h, m, m.tokens[j], token, now))
  {
    hide Good;
    FirstIff(h, m, m.tokens, token, now);
  }

  /** Where records stay what they were, or are no longer good, the first good one stays the first. */
  lemma TokenKept(h: string -> string, m: Mesh, after: Mesh, token: string, now: real, n: string)
    requires VerifyToken(h, m, token, now) == Some(n) && |after.tokens| == |m.tokens|
    requires forall i | 0 <= i < |m.tokens| :: after.tokens[i].nodeId == m.tokens[i].nodeId
    requires forall i | 0 <= i < |m.tokens| && Good(h, after, after.tokens[i], token, now) :: Good(h, m, m.tokens[i], token, now)
    requires forall i | 0 <= i < |m.tokens| && m.tokens[i].nodeId == n && Good(h, m, m.tokens[i], token, now) ::
               Good(h, after, after.tokens[i], token, now)
    ensures VerifyToken(h, after, token, now) == Some(n)
  {
    hide Good;
    TokenIff(h, m, token, now);
    TokenIff(h, after, token, now);
    var i :| 0 <= i < |m.tokens| && m.tokens[i].nodeId == n && Good(h, m, m.tokens[i], token, now)
             && forall j | 0 <= j < i :: !Good(h, m, m.tokens[j], token, now);
    assert Good(h, after, after.tokens[i], token, now);
    var first :| 0 <= first < |after.tokens| && after.tokens[first].nodeId == VerifyToken(h, after, token, now).value
                 && Good(h, after, after.tokens[first], token, now)
                 && forall j | 0 <= j < first :: !Good(h, after, after.tokens[j], token, now);
    assert Good(h, m, m.tokens[first], token, now);
    assert first == i;
  }

  // ---- what revoking a node does ----

  /** Revoking a known node revokes it in the vault, its certificate and every token record of it, and adds it
      to the revoked store.  Other nodes, certificates and token records, and all codes, are as they were. */
  lemma RevocationStores(m: Mesh, n: string, text: string)
    requires n in m.vault.state.nodes
    ensures var after := RevokedNode(m, n, text);
            && |after.tokens| == |m.tokens| && after.codes == m.codes
            && (forall i | 0 <= i < |m.tokens| ::
                  && after.tokens[i].nodeId == m.tokens[i].nodeId && after.tokens[i].hash == m.tokens[i].hash
                  && after.tokens[i].expiresAt == m.tokens[i].expiresAt
                  && (after.tokens[i].revoked <==> m.tokens[i].revoked || m.tokens[i].nodeId == n))
            && (forall other :: other in after.revoked <==> other in m.revoked || other == n)
            && OnlyNode(m.vault.state, after.vault.state, n) && n in after.vault.state.nodes
            && after.vault.state.nodes[n].standing == Revoked
            && (forall other :: other in after.certs <==> other in m.certs)
            && (forall other | other in m.certs && other != n :: after.certs[other] == m.certs[other])
            && (n in m.certs ==> after.certs[n] == m.certs[n].(revoked := true))
  {
    hide PerformAll;
    ChangedNode(m.vault.state, n, text);
  }

  /** Revocation leaves others alone: a token that authenticates as another node still does. */
  lemma RevocationSparesOthers(h: string -> string, m: Mesh, n: string, text: string, other: string, token: string, now: real)
    requires other != n && VerifyToken(h, m, token, now) == Some(other)
    ensures VerifyToken(h, RevokedNode(m, n, text), token, now) == Some(other)
  {
    hide RevokedUpTo, VerifyToken;
    if n in m.vault.state.nodes {
      RevocationStores(m, n, text);
      TokenKept(h, m, RevokedNode(m, n, text), token, now, other);
    }
  }

  /** Checking a token sets the time of its node and saves it; one that does not authenticate changes nothing. */
  lemma CheckTouches(h: string -> string, m: Mesh, token: string, now: real, text: string)
    ensures var n, after := VerifyToken(h, m, token, now), TokenChecked(h, m, token, now, text);
            && (n.None? ==> after == m)
            && (n.Some? ==>
                  && after == m.(vault := after.vault) && after.vault.disk == m.vault.disk.(state := Some(after.vault.state))
                  && n.value in m.vault.state.nodes
                  && after.vault.state == m.vault.state.(nodes := after.vault.state.nodes)
                  && after.vault.state.nodes == m.vault.state.nodes[n.value := m.vault.state.nodes[n.value].(lastSeen := Some(text))])
  {
    var n := VerifyToken(h, m, token, now);
    if n.Some? {
      var after := TokenChecked(h, m, token, now, text);
      PerformOne(m.vault.disk, SaveState(after.vault.state));
    }
  }

  /** Checking a token changes nobody's standing. */
  lemma CheckSparesAll(h: string -> string, m: Mesh, checked: string, at: real, text: string, n: string, token: string, now: real)
    requires VerifyToken(h, m, token, now) == Some(n)
    ensures VerifyToken(h, TokenChecked(h, m, checked, at, text), token, now) == Some(n)
  {
    hide VerifyToken, PerformAll;
    if VerifyToken(h, m, checked, at).Some? {
      ChangedNode(m.vault.state, VerifyToken(h, m, checked, at).value, text);
      TokenKept(h, m, TokenChecked(h, m, checked, at, text), token, now, n);
    }
  }

  // ---- inviting and joining ----

  /** 3 to 64 letters, digits, underscores and hyphens. */
  ghost predicate NodeIdOk(id: string) {
    3 <= |id| <= 64 &&
    forall i | 0 <= i < |id| :: 'a' <= id[i] <= 'z' || 'A' <= id[i] <= 'Z' || '0' <= id[i] <= '9' || id[i] == '_' || id[i] == '-'
  }

  lemma NodeIdIff(id: string)
    ensures ValidNodeId(id) <==> NodeIdOk(id)
  {
    assert (forall c | c in id :: NodeIdChar(c)) <==> forall i | 0 <= i < |id| :: NodeIdChar(id[i]);
  }

  /** An invite is made exactly for no node or a well-formed id and 1 to 86400 seconds.  Its code is the last
      record, unused, for that node and time; of the others exactly the unused and unexpired ones stay. */
  lemma InviteStores(h: string -> string, m: Mesh, nodeId: Option<string>, ttl: int, code: string, now: real)
    ensures CheckInvite(nodeId, ttl).None? <==> (nodeId.Some? ==> NodeIdOk(nodeId.value)) && 1 <= ttl <= 86_400
    ensures var after := Invited(h, m, nodeId, ttl, code, now);
            && after == m.(codes := after.codes) && after.codes != []
            && after.codes[|after.codes| - 1] == Code(h(code), nodeId, now + ttl as real, false)
            && forall c :: c in after.codes[..|after.codes| - 1] <==> c in m.codes && !c.used && now < c.expiresAt
  {
    if nodeId.Some? {
      NodeIdIff(nodeId.value);
    }
    UsableFacts(m.codes, now);
    hide NodeIdOk, ValidNodeId;
    assert Invited(h, m, nodeId, ttl, code, now).codes[..|UsableCodes(m.codes, now)|] == UsableCodes(m.codes, now);
  }

  /** The record is unused and unexpired, of this code, for this node or for any, and if an expiry is named it
      is that of the record and has not passed. */
  ghost predicate CodeServes(h: string -> string, c: Code, nodeId: string, code: string, requested: Requested, now: real) {
    && !c.used && c.hash == h(code) && now < c.expiresAt && (c.nodeId.None? || c.nodeId.value == nodeId)
    && !requested.Unreadable? && (requested.Expiry? ==> requested.at == c.expiresAt)
  }

  /** A join is accepted exactly when the id is well formed, the code is not empty and some record serves it,
      the vault does not know the node, and the node has no certificate or a revoked one. */
  lemma JoinIff(h: string -> string, m: Mesh, nodeId: string, code: string, requested: Requested, t: Times)
    ensures CheckJoin(h, m, nodeId, code, requested, t).None? <==>
            && NodeIdOk(nodeId) && code != "" && (exists c | c in m.codes :: CodeServes(h, c, nodeId, code, requested, t.checked))
            && nodeId !in m.vault.state.nodes && (nodeId in m.certs ==> m.certs[nodeId].revoked)
  {
    NodeIdIff(nodeId);
    FindCodeFirst(h, m.codes, nodeId, code, requested, t.checked);
    forall c ensures CodeMatches(h, c, nodeId, code, requested, t.checked) <==> CodeServes(h, c, nodeId, code, requested, t.checked) {
    }
    hide FindCode, ValidNodeId, NodeIdOk, CodeMatches;
  }

  /** An accepted join uses up the first record that serves it and no other, adds a token record and a
      certificate, both for 86400 seconds, and registers the node.  Of the other token records exactly the
      unrevoked and unexpired ones stay; other certificates and nodes are as they were. */
  lemma JoinStores(h: string -> string, m: Mesh, nodeId: string, code: string, requested: Requested, token: string, t: Times)
    requires CheckJoin(h, m, nodeId, code, requested, t).None?
    ensures var after := Joined(h, m, nodeId, code, requested, token, t);
            && |after.codes| == |m.codes| && after.revoked == m.revoked
            && (exists i | 0 <= i < |m.codes| ::
                  && CodeServes(h, m.codes[i], nodeId, code, requested, t.checked)
                  && (forall j | 0 <= j < i :: !CodeServes(h, m.codes[j], nodeId, code, requested, t.checked))
                  && after.codes == m.codes[i := m.codes[i].(used := true)])
            && after.tokens != [] && after.tokens[|after.tokens| - 1] == Token(nodeId, h(token), t.tokened + 86_400.0, false)
            && (forall r :: r in after.tokens[..|after.tokens| - 1] <==> r in m.tokens && !r.revoked && t.tokened < r.expiresAt)
            && after.certs == m.certs[nodeId := Cert(nodeId, t.issued + 86_400.0, false)]
            && OnlyNode(m.vault.state, after.vault.state, nodeId) && nodeId in after.vault.state.nodes
            && after.vault.state.nodes[nodeId] == Node(Active, Some(t.text), Some(t.text), "collab", 86_400)
  {
    hide PerformAll, FindCode;
    FindCodeFirst(h, m.codes, nodeId, code, requested, t.checked);
    var i := FindCode(h, m.codes, nodeId, code, requested, t.checked).value;
    forall c ensures CodeMatches(h, c, nodeId, code, requested, t.checked) <==> CodeServes(h, c, nodeId, code, requested, t.checked) {
    }
    hide CodeMatches, CodeServes;
    LiveFacts(m.tokens, t.tokened);
    RegisteredNode(m.vault.state, nodeId, "collab", 86_400, t.text);
    var after := Joined(h, m, nodeId, code, requested, token, t);
    assert after.tokens[..|after.tokens| - 1] == LiveTokens(m.tokens, t.tokened);
  }

  lemma OnlyNodeOf(h: string -> string, m: Mesh, token: string, now: real, n: string, r: Token)
    requires token != "" && r in m.tokens && Good(h, m, r, token, now)
    requires forall x | x in m.tokens && Good(h, m, x, token, now) :: x.nodeId == n
    ensures VerifyToken(h, m, token, now) == Some(n)
  {
    hide Good;
    TokenIff(h, m, token, now);
  }

  /** What an accepted join leaves of the records. */
  ghost predicate TokensJoined(tokens: seq<Token>, after: seq<Token>, hash: string, at: real) {
    && after != [] && after[|after| - 1].hash == hash
    && forall r :: r in after[..|after| - 1] <==> r in tokens && !r.revoked && at < r.expiresAt
  }

  lemma GoodRecord(h: string -> string, m: Mesh, r: Token, token: string, now: real)
    requires Good(h, m, r, token, now)
    ensures r.hash == h(token)
  {
  }

  lemma JoinKeepsTokens(h: string -> string, m: Mesh, nodeId: string, code: string, requested: Requested, issued: string, t: Times)
    requires CheckJoin(h, m, nodeId, code, requested, t).None?
    ensures var after := Joined(h, m, nodeId, code, requested, issued, t);
            && nodeId !in m.vault.state.nodes && TokensJoined(m.tokens, after.tokens, h(issued), t.tokened) && after.revoked == m.revoked
            && OnlyNode(m.vault.state, after.vault.state, nodeId)
            && forall n | n != nodeId :: (n in after.certs <==> n in m.certs) && (n in m.certs ==> after.certs[n] == m.certs[n])
  {
    hide Joined, CheckJoin, CodeServes, NodeIdOk, OnlyNode;
    JoinIff(h, m, nodeId, code, requested, t);
    JoinStores(h, m, nodeId, code, requested, issued, t);
  }

  lemma InAfter(tokens: seq<Token>, after: seq<Token>, x: Token, hash: string, at: real)
    requires TokensJoined(tokens, after, hash, at)
    ensures x in after && x.hash != hash ==> x in tokens
    ensures x in tokens && !x.revoked && at < x.expiresAt ==> x in after
  {
    if x in after && x.hash != hash {
      var j :| 0 <= j < |after| && after[j] == x;
      assert after[..|after| - 1][j] == x;
    }
  }

  lemma StillGood(h: string -> string, m: Mesh, after: Mesh, nodeId: string, r: Token, hash: string, at: real, token: string, now: real)
    requires Good(h, m, r, token, now) && r in m.tokens && at <= now && nodeId !in m.vault.state.nodes
    requires TokensJoined(m.tokens, after.tokens, hash, at) && after.revoked == m.revoked
    requires OnlyNode(m.vault.state, after.vault.state, nodeId)
    requires forall n | n != nodeId :: (n in after.certs <==> n in m.certs) && (n in m.certs ==> after.certs[n] == m.certs[n])
    ensures r in after.tokens && Good(h, after, r, token, now)
  {
    InAfter(m.tokens, after.tokens, r, hash, at);
  }

  /** The stores are written one after the other: certificates, codes, tokens, vault. */
  lemma JoinOrder(h: string -> string, m: Mesh, nodeId: string, code: string, requested: Requested, token: string, t: Times)
    requires CheckJoin(h, m, nodeId, code, requested, t).None?
    ensures var cut := k => JoinedUpTo(h, m, nodeId, code, requested, token, t, k);
            var after := Joined(h, m, nodeId, code, requested, token, t);
            && cut(0) == m && cut(1) == m.(certs := after.certs) && cut(2) == m.(certs := after.certs, codes := after.codes)
            && cut(3) == after.(vault := m.vault) && cut(4) == after
  {
  }

  /** So are those of a revocation: vault, certificates, revoked nodes, tokens. */
  lemma RevocationOrder(m: Mesh, nodeId: string, text: string)
    requires nodeId in m.vault.state.nodes
    ensures var cut := k => RevokedUpTo(m, nodeId, k, text);
            var after := RevokedNode(m, nodeId, text);
            && cut(0) == m && cut(1) == m.(vault := after.vault) && cut(2) == m.(vault := after.vault, certs := after.certs)
            && cut(3) == after.(tokens := m.tokens) && cut(4) == after
  {
  }

  /** Joining leaves others alone: a token of another node that has not expired when the new one is issued
      still authenticates. */
  lemma JoinSparesOthers(h: string -> string, m: Mesh, nodeId: string, code: string, requested: Requested, issued: string, t: Times,
                         other: string, token: string, now: real)
    requires CheckJoin(h, m, nodeId, code, requested, t).None? && h(token) != h(issued) && t.tokened <= now
    requires VerifyToken(h, m, token, now) == Some(other) && forall r | r in m.tokens && r.hash == h(token) :: r.nodeId == other
    ensures VerifyToken(h, Joined(h, m, nodeId, code, requested, issued, t), token, now) == Some(other)
  {
    var after := Joined(h, m, nodeId, code, requested, issued, t);
    hide VerifyToken, Joined, CheckJoin, Good, OnlyNode, TokensJoined;
    JoinKeepsTokens(h, m, nodeId, code, requested, issued, t);
    TokenIff(h, m, token, now);
    var i :| 0 <= i < |m.tokens| && m.tokens[i].nodeId == other && Good(h, m, m.tokens[i], token, now);
    StillGood(h, m, after, nodeId, m.tokens[i], h(issued), t.tokened, token, now);
    forall x | x in after.tokens && Good(h, after, x, token, now) ensures x.nodeId == other {
      GoodRecord(h, after, x, token, now);
      InAfter(m.tokens, after.tokens, x, h(issued), t.tokened);
    }
    OnlyNodeOf(h, after, token, now, other, m.tokens[i]);
  }
}
