/** The enrolment objects: their methods change the stores one write at a time. */
module MeshAuths {
  import opened Results
  import opened Vault
  import opened Handlers
  import opened CollabVaults
  import opened Auth

  class NodeIdentityManager {
    var nodes: map<string, Cert>

    constructor (stored: map<string, Cert>)
      ensures nodes == stored
    {
      nodes := stored;
    }

    method Issue(nodeId: string, now: real) returns (r: Result<Cert, AuthError>)
      requires ValidNodeId(nodeId)
      modifies this
      ensures r.Ok? <==> CanIssue(old(nodes), nodeId)
      ensures r.Ok? ==> r.value == Cert(nodeId, now + VALIDITY, false) && nodes == old(nodes)[nodeId := r.value]
      ensures r.Err? ==> r.error == CertificateExists && nodes == old(nodes)
    {
      if nodeId in nodes && !nodes[nodeId].revoked {
        return Err(CertificateExists);
      }
      var cert := Cert(nodeId, now + VALIDITY, false);
      nodes := nodes[nodeId := cert];
      r := Ok(cert);
    }

    method Revoke(nodeId: string) returns (found: bool)
      modifies this
      ensures nodes == CertRevoked(old(nodes), nodeId) && found == (nodeId in old(nodes))
    {
      if nodeId !in nodes {
        return false;
      }
      nodes := nodes[nodeId := nodes[nodeId].(revoked := true)];
      found := true;
    }

    method Verify(nodeId: string, now: real) returns (ok: bool)
      ensures ok == CertLive(nodes, nodeId, now)
    {
      if nodeId !in nodes || nodes[nodeId].nodeId != nodeId || nodes[nodeId].revoked {
        return false;
      }
      ok := nodes[nodeId].expiresAt > now;
    }
  }

  class MeshAuth {
    const hash: string -> string
    const vault: CollabVault
    const identity: NodeIdentityManager
    var codes: seq<Code>
    var tokens: seq<Token>
    var revoked: set<string>

    ghost function Model(): Mesh
      reads this, vault, identity
    {
      Mesh(vault.Model(), codes, tokens, revoked, identity.nodes)
    }

    /** Starting up on existing stores: every node of the revoked store is marked in the vault. */
    constructor (hash: string -> string, vault: CollabVault, identity: NodeIdentityManager,
                 codes: seq<Code>, tokens: seq<Token>, revoked: set<string>, text: string)
      modifies vault
      ensures this.vault == vault && this.identity == identity && this.hash == hash
      ensures Model() == Mesh(MarkAll(old(vault.Model()), SortedNames(revoked), text), codes, tokens, revoked, old(identity.nodes))
    {
      this.hash, this.vault, this.identity := hash, vault, identity;
      this.codes, this.tokens, this.revoked := codes, tokens, revoked;
      new;
      var names := SortedNames(revoked);
      for i := 0 to |names|
        invariant vault.Model() == MarkAll(old(vault.Model()), names[..i], text)
        invariant Model() == Mesh(vault.Model(), codes, tokens, revoked, old(identity.nodes))
      {
        assert names[..i + 1][..i] == names[..i];
        vault.MarkNodeRevoked(names[i], text);
      }
      assert names[..|names|] == names;
    }

    method CreateInvite(nodeId: Option<string>, ttl: int, code: string, now: real) returns (error: Option<AuthError>)
      modifies this
      ensures error == CheckInvite(nodeId, ttl)
      ensures Model() == if error.None? then Invited(hash, old(Model()), nodeId, ttl, code, now) else old(Model())
    {
      if nodeId.Some? && !ValidNodeId(nodeId.value) {
        return Some(InvalidNodeId);
      }
      if ttl < 1 || ttl > MAX_TTL {
        return Some(InvalidTtl);
      }
      var record := Code(hash(code), nodeId, now + ttl as real, false);
      codes := UsableCodes(codes, now) + [record];
      error := None;
    }

    /** The loop of `join` over the code store. */
    method MatchCode(nodeId: string, code: string, requested: Requested, now: real) returns (found: Option<nat>)
      ensures found == FindCode(hash, codes, nodeId, code, requested, now)
    {
      for i := 0 to |codes|
        invariant FindCode(hash, codes, nodeId, code, requested, now) ==
                  match FindCode(hash, codes[i..], nodeId, code, requested, now)
                  case None => None
                  case Some(j) => Some(i + j)
      {
        assert codes[i..][0] == codes[i] && codes[i..][1..] == codes[i + 1..];
        if CodeMatches(hash, codes[i], nodeId, code, requested, now) {
          return Some(i);
        }
      }
      found := None;
    }

    method Join(nodeId: string, code: string, requested: Requested, token: string, t: Times) returns (error: Option<AuthError>)
      modifies this, vault, identity
      ensures error == CheckJoin(hash, old(Model()), nodeId, code, requested, t)
      ensures Model() == if error.None? then Joined(hash, old(Model()), nodeId, code, requested, token, t) else old(Model())
    {
      hide ValidNodeId, CodeMatches, Commit, Register, LiveTokens;
      if !ValidNodeId(nodeId) || code == "" {
        return Some(InvalidCode);
      }
      var found := MatchCode(nodeId, code, requested, t.checked);
      if found.None? {
        return Some(InvalidCode);
      }
      if nodeId in vault.state.nodes {
        return Some(AlreadyRegistered);
      }
      var certificate := identity.Issue(nodeId, t.issued);
      if certificate.Err? {
        return Some(certificate.error);
      }
      var i := found.value;
      codes := codes[i := codes[i].(used := true)];
      var record := Token(nodeId, hash(token), t.tokened + TOKEN_LIFETIME, false);
      tokens := LiveTokens(tokens, t.tokened) + [record];
      var failed := vault.RegisterNode(nodeId, "collab", 86_400, t.text);
      error := None;
    }

    method CheckToken(token: string, now: real, text: string) returns (nodeId: Option<string>)
      modifies vault
      ensures nodeId == VerifyToken(hash, old(Model()), token, now)
      ensures Model() == TokenChecked(hash, old(Model()), token, now, text)
    {
      if token == "" {
        return None;
      }
      var digest := hash(token);
      for i := 0 to |tokens|
        invariant Model() == old(Model())
        invariant FirstAuthenticating(hash, old(Model()), tokens, token, now) == FirstAuthenticating(hash, old(Model()), tokens[i..], token, now)
      {
        var r := tokens[i];
        assert tokens[i..][0] == r && tokens[i..][1..] == tokens[i + 1..];
        if r.expiresAt > now && !r.revoked && r.hash == digest {
          var certified := identity.Verify(r.nodeId, now);
          if r.nodeId in vault.state.nodes && vault.state.nodes[r.nodeId].standing == Active && r.nodeId !in revoked && certified {
            vault.TouchNode(r.nodeId, text);
            return Some(r.nodeId);
          }
        }
      }
      nodeId := None;
    }

    method RevokeNode(nodeId: string, text: string) returns (changed: bool)
      modifies this, vault, identity
      ensures changed == (nodeId in old(vault.state).nodes)
      ensures Model() == RevokedNode(old(Model()), nodeId, text)
    {
      changed := vault.RevokeNode(nodeId, text);
      if !changed {
        PerformNone(vault.disk);
        return;
      }
      var known := identity.Revoke(nodeId);
      revoked := revoked + {nodeId};
      RevokeTokens(nodeId);
    }

    method RevokeTokens(nodeId: string)
      modifies this`tokens
      ensures tokens == TokensRevoked(old(tokens), nodeId)
    {
      for i := 0 to |tokens|
        invariant |tokens| == |old(tokens)|
        invariant forall j | 0 <= j < |tokens| ::
                    tokens[j] == if j < i then TokensRevoked(old(tokens), nodeId)[j] else old(tokens)[j]
      {
        if tokens[i].nodeId == nodeId {
          tokens := tokens[i := tokens[i].(revoked := true)];
        }
      }
    }
  }
}
