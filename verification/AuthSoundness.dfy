/** Authentication soundness: a token authenticates only as the node that one join issued it to. */
module AuthSoundness {
  import opened Results
  import opened Chain
  import opened Paths
  import opened Vault
  import opened Auth
  import opened AuthRuns

  // ---- the invariant ----

  ghost predicate FromInvite(h: string -> string, invites: seq<Issued>, c: Code) {
    exists i | i in invites :: h(i.code) == c.hash && i.boundTo == c.nodeId && i.expiresAt == c.expiresAt
  }

  /** The join consumed a code that was issued, not expired, and bound to the node or to none. */
  ghost predicate Enrolment(invites: seq<Issued>, j: Enrolled) {
    exists i | i in invites :: i.code == j.code && (i.boundTo == None || i.boundTo == Some(j.nodeId)) && j.at < i.expiresAt
  }

  ghost predicate DistinctHashes(codes: seq<Code>) {
    forall a, b | 0 <= a < b < |codes| :: codes[a].hash != codes[b].hash
  }

  ghost predicate CodesOk(h: string -> string, s: History) {
    && (forall c | c in s.mesh.codes :: FromInvite(h, s.invites, c))
    && DistinctHashes(s.mesh.codes)
    && (forall c, j | c in s.mesh.codes && !c.used && j in s.joins :: h(j.code) != c.hash)
    && (forall j | j in s.joins :: Enrolment(s.invites, j))
  }

  ghost predicate JoinsDistinct(joins: seq<Enrolled>) {
    forall a, b | 0 <= a < b < |joins| ::
      joins[a].code != joins[b].code && joins[a].token != joins[b].token
  }

  ghost predicate TokenFrom(h: string -> string, joins: seq<Enrolled>, r: Token) {
    exists j | j in joins :: j.nodeId == r.nodeId && h(j.token) == r.hash && j.tokenExpires == r.expiresAt
  }

  ghost predicate TokensOk(h: string -> string, s: History) {
    forall r | r in s.mesh.tokens :: TokenFrom(h, s.joins, r)
  }

  /** When the last certificate issued to n expires. */
  function LastIssued(certified: seq<Certified>, n: string): Option<real> {
    if certified == [] then None
    else
      var last := certified[|certified| - 1];
      if last.nodeId == n then Some(last.expiresAt) else LastIssued(certified[..|certified| - 1], n)
  }

  /** The store holds the last certificate of each node that was issued one. */
  ghost predicate CertsOk(s: History) {
    forall n :: CertOk(s, n)
  }

  ghost predicate CertOk(s: History, n: string) {
    && (n in s.mesh.certs <==> LastIssued(s.certified, n).Some?)
    && (n in s.mesh.certs ==> s.mesh.certs[n].expiresAt == LastIssued(s.certified, n).value)
  }

  ghost predicate RevokedKnown(m: Mesh) {
    forall n | n in m.revoked :: n in m.vault.state.nodes
  }

  ghost predicate RevocationsKept(s: History) {
    forall n | n in s.revocations :: n in s.mesh.revoked
  }

  ghost predicate Sound(h: string -> string, s: History) {
    CodesOk(h, s) && JoinsDistinct(s.joins) && TokensOk(h, s) && CertsOk(s) && RevokedKnown(s.mesh) && RevocationsKept(s)
  }

  // ---- invites ----

  lemma MoreInvites(h: string -> string, invites: seq<Issued>, more: Issued, c: Code)
    requires FromInvite(h, invites, c)
    ensures FromInvite(h, invites + [more], c)
  {
    var i :| i in invites && h(i.code) == c.hash && i.boundTo == c.nodeId && i.expiresAt == c.expiresAt;
    assert i in invites + [more];
  }

  lemma MoreInvitesEnrolment(invites: seq<Issued>, more: Issued, j: Enrolled)
    requires Enrolment(invites, j)
    ensures Enrolment(invites + [more], j)
  {
    var i :| i in invites && i.code == j.code && (i.boundTo == None || i.boundTo == Some(j.nodeId)) && j.at < i.expiresAt;
    assert i in invites + [more];
  }

  lemma DistinctAppend(codes: seq<Code>, c: Code)
    requires DistinctHashes(codes) && forall x | x in codes :: x.hash != c.hash
    ensures DistinctHashes(codes + [c])
  {
    forall a, b | 0 <= a < b < |codes| + 1 ensures (codes + [c])[a].hash != (codes + [c])[b].hash {
      assert codes[a] in codes;
    }
  }

  lemma {:induction false} UsableDistinct(codes: seq<Code>, now: real)
    requires DistinctHashes(codes)
    ensures DistinctHashes(UsableCodes(codes, now))
  {
    if codes != [] {
      var front, last := codes[..|codes| - 1], codes[|codes| - 1];
      UsableDistinct(front, now);
      UsableFacts(front, now);
      forall x | x in UsableCodes(front, now) ensures x.hash != last.hash {
        var k :| 0 <= k < |front| && front[k] == x;
        assert codes[k] == x;
      }
      DistinctAppend(UsableCodes(front, now), last);
    }
  }

  /** A fresh code has a hash that no record and no earlier join has. */
  lemma FreshCode(h: string -> string, s: History, code: string)
    requires GoodHash(h) && CodesOk(h, s) && forall i | i in s.invites :: i.code != code
    ensures forall c | c in s.mesh.codes :: c.hash != h(code)
    ensures forall j | j in s.joins :: h(j.code) != h(code)
  {
    forall c | c in s.mesh.codes ensures c.hash != h(code) {
      var i :| i in s.invites && h(i.code) == c.hash && i.boundTo == c.nodeId && i.expiresAt == c.expiresAt;
    }
    forall j | j in s.joins ensures h(j.code) != h(code) {
      assert Enrolment(s.invites, j);
      var i :| i in s.invites && i.code == j.code && (i.boundTo == None || i.boundTo == Some(j.nodeId)) && j.at < i.expiresAt;
    }
  }

  lemma InviteKeepsCodes(h: string -> string, s: History, boundTo: Option<string>, ttl: int, code: string, now: real)
    requires GoodHash(h) && CodesOk(h, s) && forall i | i in s.invites :: i.code != code
    ensures CodesOk(h, s.(mesh := Invited(h, s.mesh, boundTo, ttl, code, now),
                          invites := s.invites + [Issued(code, boundTo, now + ttl as real)]))
  {
    var usable := UsableCodes(s.mesh.codes, now);
    var record, issued := Code(h(code), boundTo, now + ttl as real, false), Issued(code, boundTo, now + ttl as real);
    var codes := usable + [record];
    FreshCode(h, s, code);
    UsableFacts(s.mesh.codes, now);
    UsableDistinct(s.mesh.codes, now);
    forall c | c in codes ensures FromInvite(h, s.invites + [issued], c) {
      if c in usable {
        MoreInvites(h, s.invites, issued, c);
      } else {
        assert issued in s.invites + [issued];
      }
    }
    DistinctAppend(usable, record);
    forall c, j | c in codes && !c.used && j in s.joins ensures h(j.code) != c.hash {
      assert c in usable || c == record;
    }
    forall j | j in s.joins ensures Enrolment(s.invites + [issued], j) {
      MoreInvitesEnrolment(s.invites, issued, j);
    }
  }

  // ---- joins ----

  /** What an accepted join proves about its code and its node. */
  lemma AcceptedJoin(h: string -> string, s: History, nodeId: string, code: string, requested: Requested, token: string, t: Times)
    requires GoodHash(h) && Sound(h, s) && CheckJoin(h, s.mesh, nodeId, code, requested, t).None?
    ensures Enrolment(s.invites, EnrolledBy(nodeId, code, token, t))
    ensures forall j | j in s.joins :: j.code != code
  {
    var c := s.mesh.codes[FindCode(h, s.mesh.codes, nodeId, code, requested, t.checked).value];
    assert FromInvite(h, s.invites, c);
    var k :| k in s.invites && h(k.code) == c.hash && k.boundTo == c.nodeId && k.expiresAt == c.expiresAt;
    assert k.code == code;
    forall j | j in s.joins ensures j.code != code {
      assert h(j.code) != c.hash;
    }
  }

  lemma JoinKeepsCodes(h: string -> string, s: History, e: Enrolled, i: nat)
    requires GoodHash(h) && CodesOk(h, s) && i < |s.mesh.codes| && s.mesh.codes[i].hash == h(e.code)
    requires Enrolment(s.invites, e)
    ensures CodesOk(h, s.(mesh := s.mesh.(codes := s.mesh.codes[i := s.mesh.codes[i].(used := true)]), joins := s.joins + [e]))
  {
    var codes := s.mesh.codes[i := s.mesh.codes[i].(used := true)];
    forall c | c in codes ensures FromInvite(h, s.invites, c) {
      var a :| 0 <= a < |codes| && codes[a] == c;
      assert s.mesh.codes[a] in s.mesh.codes && FromInvite(h, s.invites, s.mesh.codes[a]);
    }
    forall c, j | c in codes && !c.used && j in s.joins + [e] ensures h(j.code) != c.hash {
      var a :| 0 <= a < |codes| && codes[a] == c;
      assert a != i && s.mesh.codes[a] == c && c in s.mesh.codes;
      assert s.mesh.codes[a].hash != s.mesh.codes[i].hash;
    }
  }

  lemma MoreJoins(h: string -> string, joins: seq<Enrolled>, e: Enrolled, r: Token)
    requires TokenFrom(h, joins, r)
    ensures TokenFrom(h, joins + [e], r)
  {
    var j :| j in joins && j.nodeId == r.nodeId && h(j.token) == r.hash && j.tokenExpires == r.expiresAt;
    assert j in joins + [e];
  }

  lemma JoinKeepsTokens(h: string -> string, s: History, e: Enrolled, now: real)
    requires TokensOk(h, s)
    ensures forall r | r in LiveTokens(s.mesh.tokens, now) + [Token(e.nodeId, h(e.token), e.tokenExpires, false)] :: TokenFrom(h, s.joins + [e], r)
  {
    var record := Token(e.nodeId, h(e.token), e.tokenExpires, false);
    LiveFacts(s.mesh.tokens, now);
    forall r | r in LiveTokens(s.mesh.tokens, now) + [record] ensures TokenFrom(h, s.joins + [e], r) {
      if r in LiveTokens(s.mesh.tokens, now) {
        MoreJoins(h, s.joins, e, r);
      } else {
        assert e in s.joins + [e];
      }
    }
  }

  /** The code of an accepted join, marked as used, and the join itself. */
  lemma UsedCodeKeepsCodes(h: string -> string, s: History, i: nat)
    requires CodesOk(h, s) && i < |s.mesh.codes|
    ensures CodesOk(h, s.(mesh := s.mesh.(codes := s.mesh.codes[i := s.mesh.codes[i].(used := true)])))
  {
    var codes := s.mesh.codes[i := s.mesh.codes[i].(used := true)];
    forall c | c in codes ensures (!c.used ==> c in s.mesh.codes) && FromInvite(h, s.invites, c) {
      var a :| 0 <= a < |codes| && codes[a] == c;
      assert s.mesh.codes[a] in s.mesh.codes && FromInvite(h, s.invites, s.mesh.codes[a]);
    }
  }

  /** The stores that any number of the writes of a join leave. */
  lemma JoinedUpToSound(h: string -> string, s: History, nodeId: string, code: string, requested: Requested, token: string, t: Times, k: nat)
    requires GoodHash(h) && Sound(h, s) && CheckJoin(h, s.mesh, nodeId, code, requested, t).None?
    requires token != "" && forall j | j in s.joins :: j.token != token
    ensures Sound(h, JoinRecorded(s, nodeId, code, token, t, k).(mesh := JoinedUpTo(h, s.mesh, nodeId, code, requested, token, t, k)))
  {
    hide CodesOk, TokensOk, CertsOk, JoinsDistinct, RevokedKnown, RevocationsKept, Enrolment, LiveTokens, Commit, Register;
    var e, i := EnrolledBy(nodeId, code, token, t), FindCode(h, s.mesh.codes, nodeId, code, requested, t.checked).value;
    AcceptedJoin(h, s, nodeId, code, requested, token, t);
    var joined := JoinedUpTo(h, s.mesh, nodeId, code, requested, token, t, k);
    var recorded := JoinRecorded(s, nodeId, code, token, t, k).(mesh := joined);
    JoinKeepsKnown(h, s.mesh, nodeId, code, requested, token, t, k);
    JoinKeepsCerts(s, recorded, Certified(nodeId, t.issued + VALIDITY));
    if k >= 3 {
      JoinedParts(h, s, recorded, e, i, t);
    } else {
      UnissuedParts(h, s, recorded, i);
    }
  }

  lemma JoinKeepsSound(h: string -> string, root: Path, s: History, nodeId: string, code: string, requested: Requested, token: string, t: Times)
    requires GoodHash(h) && Sound(h, s) && Fresh(s, Join(nodeId, code, requested, token, t))
    ensures Sound(h, Next(h, root, s, Join(nodeId, code, requested, token, t)))
  {
    hide Sound, JoinedUpTo;
    if CheckJoin(h, s.mesh, nodeId, code, requested, t).None? {
      JoinedUpToSound(h, s, nodeId, code, requested, token, t, 4);
    }
  }

  lemma CutJoinKeepsSound(h: string -> string, root: Path, s: History, step: Step)
    requires GoodHash(h) && Sound(h, s) && Fresh(s, step) && step.CutJoin?
    ensures Sound(h, Next(h, root, s, step))
  {
    hide Sound, JoinedUpTo, RestartedMesh, CheckJoin;
    if CheckJoin(h, s.mesh, step.nodeId, step.code, step.requested, step.times).None? {
      JoinedUpToSound(h, s, step.nodeId, step.code, step.requested, step.token, step.times, step.k);
      var joined := JoinedUpTo(h, s.mesh, step.nodeId, step.code, step.requested, step.token, step.times, step.k);
      RestartKeepsSound(h, JoinRecorded(s, step.nodeId, step.code, step.token, step.times, step.k).(mesh := joined), step.readable, step.text);
    } else {
      RestartKeepsSound(h, s, step.readable, step.text);
    }
  }

  lemma RestartKeepsSound(h: string -> string, s: History, readable: bool, text: string)
    requires Sound(h, s)
    ensures Sound(h, s.(mesh := RestartedMesh(s.mesh, readable, text)))
  {
    hide CodesOk, TokensOk, CertsOk, JoinsDistinct, Handlers.Restarted;
    RestartNodes(s.mesh, readable, text);
    VaultChangeKeepsSound(h, s, RestartedMesh(s.mesh, readable, text).vault);
  }

  /** The stores an accepted join leaves once its token is stored, part by part. */
  lemma JoinedParts(h: string -> string, s: History, after: History, e: Enrolled, i: nat, t: Times)
    requires GoodHash(h) && Sound(h, s) && Enrolment(s.invites, e)
    requires forall j | j in s.joins :: j.code != e.code && j.token != e.token
    requires i < |s.mesh.codes| && s.mesh.codes[i].hash == h(e.code)
    requires after.mesh.codes == s.mesh.codes[i := s.mesh.codes[i].(used := true)]
    requires after.mesh.tokens == LiveTokens(s.mesh.tokens, t.tokened) + [Token(e.nodeId, h(e.token), e.tokenExpires, false)]
    requires after.mesh.revoked == s.mesh.revoked && RevokedKnown(after.mesh) && CertsOk(after)
    requires after.invites == s.invites && after.joins == s.joins + [e] && after.revocations == s.revocations
    ensures Sound(h, after)
  {
    hide CertsOk;
    JoinKeepsCodes(h, s, e, i);
    JoinKeepsTokens(h, s, e, t.tokened);
  }

  /** The stores while the token of a join is not stored. */
  lemma UnissuedParts(h: string -> string, s: History, after: History, i: nat)
    requires Sound(h, s) && i < |s.mesh.codes|
    requires after.mesh.codes == s.mesh.codes || after.mesh.codes == s.mesh.codes[i := s.mesh.codes[i].(used := true)]
    requires after.mesh.tokens == s.mesh.tokens
    requires after.mesh.revoked == s.mesh.revoked && RevokedKnown(after.mesh) && CertsOk(after)
    requires after.invites == s.invites && after.joins == s.joins && after.revocations == s.revocations
    ensures Sound(h, after)
  {
    hide CertsOk;
    UsedCodeKeepsCodes(h, s, i);
  }

  lemma LastIssuedAppend(certified: seq<Certified>, x: Certified, n: string)
    ensures LastIssued(certified + [x], n) == if x.nodeId == n then Some(x.expiresAt) else LastIssued(certified, n)
  {
    assert (certified + [x])[..|certified|] == certified;
  }

  lemma SameCertsOk(s: History, after: History)
    requires CertsOk(s) && after.certified == s.certified && after.mesh.certs == s.mesh.certs
    ensures CertsOk(after)
  {
    forall n ensures CertOk(after, n) {
      assert CertOk(s, n);
    }
  }

  lemma JoinKeepsCerts(s: History, after: History, x: Certified)
    requires CertsOk(s)
    requires || (after.certified == s.certified && after.mesh.certs == s.mesh.certs)
             || (after.certified == s.certified + [x] && after.mesh.certs == s.mesh.certs[x.nodeId := Cert(x.nodeId, x.expiresAt, false)])
    ensures CertsOk(after)
  {
    forall n ensures CertOk(after, n) {
      assert CertOk(s, n);
      LastIssuedAppend(s.certified, x, n);
    }
  }

  lemma JoinKeepsKnown(h: string -> string, m: Mesh, nodeId: string, code: string, requested: Requested, token: string, t: Times, k: nat)
    requires RevokedKnown(m) && CheckJoin(h, m, nodeId, code, requested, t).None?
    ensures RevokedKnown(JoinedUpTo(h, m, nodeId, code, requested, token, t, k))
  {
    hide FindCode, CodeMatches, LiveTokens, PerformAll;
  }

  // ---- the other steps ----

  /** The stores that any number of the writes of a revocation leave. */
  lemma RevokedUpToSound(h: string -> string, s: History, n: string, k: nat, text: string)
    requires Sound(h, s) && n in s.mesh.vault.state.nodes
    ensures Sound(h, s.(mesh := RevokedUpTo(s.mesh, n, k, text)))
  {
    hide PerformAll;
    var after := RevokedUpTo(s.mesh, n, k, text);
    forall r | r in after.tokens ensures TokenFrom(h, s.joins, r) {
      var a :| 0 <= a < |after.tokens| && after.tokens[a] == r;
      assert s.mesh.tokens[a] in s.mesh.tokens && TokenFrom(h, s.joins, s.mesh.tokens[a]);
    }
    forall m ensures CertOk(s.(mesh := after), m) {
      assert CertOk(s, m);
    }
  }

  lemma RevokeKeepsSound(h: string -> string, root: Path, s: History, n: string, text: string)
    requires Sound(h, s)
    ensures Sound(h, Next(h, root, s, RevokeCall(n, text)))
  {
    hide Sound, Commit, TokensRevoked, CertRevoked;
    if n in s.mesh.vault.state.nodes {
      RevokedUpToSound(h, s, n, 4, text);
      MoreRevocations(h, s.(mesh := RevokedUpTo(s.mesh, n, 4, text)), n);
    }
  }

  lemma MoreRevocations(h: string -> string, s: History, n: string)
    requires Sound(h, s) && n in s.mesh.revoked
    ensures Sound(h, s.(revocations := s.revocations + [n]))
  {
    SameCertsOk(s, s.(revocations := s.revocations + [n]));
  }

  lemma CutRevokeKeepsSound(h: string -> string, root: Path, s: History, n: string, k: nat, readable: bool, text: string)
    requires Sound(h, s)
    ensures Sound(h, Next(h, root, s, CutRevoke(n, k, readable, text)))
  {
    hide Sound, RevokedUpTo, RestartedMesh;
    if n in s.mesh.vault.state.nodes {
      RevokedUpToSound(h, s, n, k, text);
      RestartKeepsSound(h, s.(mesh := RevokedUpTo(s.mesh, n, k, text)), readable, text);
    } else {
      RestartKeepsSound(h, s, readable, text);
    }
  }

  lemma VaultChangeKeepsSound(h: string -> string, s: History, vault: Vault)
    requires Sound(h, s) && forall n | n in s.mesh.revoked :: n in vault.state.nodes
    ensures Sound(h, s.(mesh := s.mesh.(vault := vault)))
  {
    SameCertsOk(s, s.(mesh := s.mesh.(vault := vault)));
  }

  lemma InviteKeepsSound(h: string -> string, root: Path, s: History, boundTo: Option<string>, ttl: int, code: string, now: real)
    requires GoodHash(h) && Sound(h, s) && Fresh(s, Invite(boundTo, ttl, code, now))
    ensures Sound(h, Next(h, root, s, Invite(boundTo, ttl, code, now)))
  {
    hide CheckJoin, JoinedUpTo, RevokedUpTo, RestartedMesh, Handlers.Next, VerifyToken, UsableCodes, CertsOk;
    if CheckInvite(boundTo, ttl).None? {
      InviteKeepsCodes(h, s, boundTo, ttl, code, now);
      SameCertsOk(s, Next(h, root, s, Invite(boundTo, ttl, code, now)));
    }
  }

  lemma NextKeepsSound(h: string -> string, root: Path, s: History, step: Step)
    requires GoodHash(h) && Sound(h, s) && Fresh(s, step)
    ensures Sound(h, Next(h, root, s, step))
  {
    hide Sound, RestartedMesh, RevokedNode, CutRevocation, JoinedUpTo, CheckJoin, Handlers.Next, Invited;
    var v := s.mesh.vault;
    match step {
      case Invite(boundTo, ttl, code, now) => InviteKeepsSound(h, root, s, boundTo, ttl, code, now);
      case Join(nodeId, code, requested, token, t) => JoinKeepsSound(h, root, s, nodeId, code, requested, token, t);
      case Check(token, now, text) => CheckKeepsSound(h, s, token, now, text);
      case Request(request) => RequestKeepsSound(h, root, s, request);
      case RevokeCall(nodeId, text) => RevokeKeepsSound(h, root, s, nodeId, text);
      case Restart(readable, text) => RestartKeepsSound(h, s, readable, text);
      case CutJoin(_, _, _, _, _, _, _, _) => CutJoinKeepsSound(h, root, s, step);
      case CutRevoke(nodeId, k, readable, text) => CutRevokeKeepsSound(h, root, s, nodeId, k, readable, text);
    }
  }

  lemma CheckKeepsSound(h: string -> string, s: History, token: string, now: real, text: string)
    requires Sound(h, s)
    ensures Sound(h, s.(mesh := TokenChecked(h, s.mesh, token, now, text)))
  {
    hide CodesOk, TokensOk, CertsOk, JoinsDistinct, VerifyToken, PerformAll;
    VaultChangeKeepsSound(h, s, TokenChecked(h, s.mesh, token, now, text).vault);
  }

  lemma RequestKeepsSound(h: string -> string, root: Path, s: History, request: Handlers.Step)
    requires Sound(h, s) && FromOutside(request)
    ensures Sound(h, s.(mesh := s.mesh.(vault := Handlers.Next(h, root, s.mesh.vault, request))))
  {
    hide CodesOk, TokensOk, CertsOk, JoinsDistinct, Handlers.Next;
    RequestKeepsNodes(h, root, s.mesh.vault, request);
    VaultChangeKeepsSound(h, s, Handlers.Next(h, root, s.mesh.vault, request));
  }

  lemma {:induction false} RunKeepsSound(h: string -> string, root: Path, steps: seq<Step>)
    requires GoodHash(h) && FreshRun(h, root, START, steps)
    ensures Sound(h, Run(h, root, START, steps))
  {
    hide Next, Fresh;
    if steps != [] {
      RunKeepsSound(h, root, steps[..|steps| - 1]);
      NextKeepsSound(h, root, Run(h, root, START, steps[..|steps| - 1]), steps[|steps| - 1]);
    }
  }

  // ---- soundness ----

  /** Join `i` is the one and only that issued `token`: to n, by consuming an issued code that no
      other join consumed. */
  ghost predicate OnlyIssuer(s: History, i: nat, token: string, n: string) {
    && i < |s.joins| && s.joins[i].token == token && s.joins[i].nodeId == n
    && Enrolment(s.invites, s.joins[i])
    && forall k | 0 <= k < |s.joins| && (s.joins[k].token == token || s.joins[k].code == s.joins[i].code) :: k == i
  }

  /** In every run of invites, joins, checks, requests, revocations, restarts, and joins and
      revocations cut by a crash, a token that authenticates as n was issued to n by exactly one join,
      which consumed a code that was then issued, unexpired, used by no other join, and bound to n or
      to none; the token and the last certificate issued to n have not expired, and no revocation of n
      has succeeded. */
  lemma AuthenticationSound(h: string -> string, root: Path, steps: seq<Step>, token: string, now: real)
    requires GoodHash(h) && FreshRun(h, root, START, steps)
    requires VerifyToken(h, Run(h, root, START, steps).mesh, token, now).Some?
    ensures var s := Run(h, root, START, steps);
            var n := VerifyToken(h, s.mesh, token, now).value;
            && n !in s.revocations
            && (exists i: nat :: OnlyIssuer(s, i, token, n) && now < s.joins[i].tokenExpires)
            && LastIssued(s.certified, n).Some? && now < LastIssued(s.certified, n).value
  {
    hide Run, FreshRun, Sound, OnlyIssuer, LastIssued;
    RunKeepsSound(h, root, steps);
    SoundToken(h, Run(h, root, START, steps), token, now);
  }

  lemma SoundToken(h: string -> string, s: History, token: string, now: real)
    requires GoodHash(h) && Sound(h, s) && VerifyToken(h, s.mesh, token, now).Some?
    ensures var n := VerifyToken(h, s.mesh, token, now).value;
            && n !in s.revocations
            && (exists i: nat :: OnlyIssuer(s, i, token, n) && now < s.joins[i].tokenExpires)
            && LastIssued(s.certified, n).Some? && now < LastIssued(s.certified, n).value
  {
    hide CodeMatches, LastIssued;
    var n := VerifyToken(h, s.mesh, token, now).value;
    var r :| r in s.mesh.tokens && r.nodeId == n && Authenticates(h, s.mesh, r, token, now);
    assert TokenFrom(h, s.joins, r);
    assert CertOk(s, n);
    var j :| j in s.joins && j.nodeId == r.nodeId && h(j.token) == r.hash && j.tokenExpires == r.expiresAt;
    var i: nat :| i < |s.joins| && s.joins[i] == j;
    assert j.token == token;
    assert OnlyIssuer(s, i, token, n);
  }

  /** In every run each code and each token belongs to at most one join, although used and expired
      codes are purged by later invites. */
  lemma CodesJoinOnce(h: string -> string, root: Path, steps: seq<Step>)
    requires GoodHash(h) && FreshRun(h, root, START, steps)
    ensures JoinsDistinct(Run(h, root, START, steps).joins)
    ensures forall j | j in Run(h, root, START, steps).joins :: Enrolment(Run(h, root, START, steps).invites, j)
  {
    RunKeepsSound(h, root, steps);
  }

  // ---- how often a node enrols ----

  function JoinsOf(joins: seq<Enrolled>, n: string): nat {
    if joins == [] then 0 else JoinsOf(joins[..|joins| - 1], n) + if joins[|joins| - 1].nodeId == n then 1 else 0
  }

  function IssuedTo(certified: seq<Certified>, n: string): nat {
    if certified == [] then 0
    else IssuedTo(certified[..|certified| - 1], n) + if certified[|certified| - 1].nodeId == n then 1 else 0
  }

  /** The revocations of n that a crash cut after exactly two of the four writes. */
  function HalfRevoked(steps: seq<Step>, n: string): nat {
    if steps == [] then 0
    else
      var last := steps[|steps| - 1];
      HalfRevoked(steps[..|steps| - 1], n) + if last.CutRevoke? && last.nodeId == n && last.k == 2 then 1 else 0
  }

  /** n can still be issued a certificate. */
  function Issuable(m: Mesh, n: string): nat {
    if n !in m.certs || (m.certs[n].revoked && n !in m.revoked) then 1 else 0
  }

  ghost predicate Counted(s: History, n: string, halves: nat) {
    JoinsOf(s.joins, n) <= IssuedTo(s.certified, n) && IssuedTo(s.certified, n) + Issuable(s.mesh, n) <= 1 + halves
  }

  lemma JoinCounts(s: History, nodeId: string, code: string, token: string, t: Times, k: nat, n: string)
    ensures var after := JoinRecorded(s, nodeId, code, token, t, k);
            && JoinsOf(after.joins, n) == JoinsOf(s.joins, n) + (if k >= 3 && nodeId == n then 1 else 0)
            && IssuedTo(after.certified, n) == IssuedTo(s.certified, n) + (if k >= 1 && nodeId == n then 1 else 0)
  {
    var e, x := EnrolledBy(nodeId, code, token, t), Certified(nodeId, t.issued + VALIDITY);
    assert (s.joins + [e])[..|s.joins|] == s.joins && (s.certified + [x])[..|s.certified|] == s.certified;
  }

  lemma JoinedUpToCounted(h: string -> string, s: History, nodeId: string, code: string, requested: Requested, token: string, t: Times,
                          k: nat, n: string, halves: nat)
    requires RevokedKnown(s.mesh) && Counted(s, n, halves) && CheckJoin(h, s.mesh, nodeId, code, requested, t).None?
    ensures Counted(JoinRecorded(s, nodeId, code, token, t, k).(mesh := JoinedUpTo(h, s.mesh, nodeId, code, requested, token, t, k)), n, halves)
  {
    JoinCounts(s, nodeId, code, token, t, k, n);
    hide FindCode, CodeMatches, LiveTokens, Commit, Register, JoinsOf, IssuedTo, JoinRecorded;
  }

  /** Only certificates and the revoked store count. */
  lemma SameCounted(s: History, after: History, n: string, halves: nat)
    requires Counted(s, n, halves) && after.joins == s.joins && after.certified == s.certified
    requires after.mesh.certs == s.mesh.certs && s.mesh.revoked <= after.mesh.revoked
    ensures Counted(after, n, halves)
  {
  }

  lemma RevokedUpToCounted(s: History, nodeId: string, k: nat, text: string, n: string, halves: nat)
    requires Counted(s, n, halves)
    ensures Counted(s.(mesh := RevokedUpTo(s.mesh, nodeId, k, text)), n, if nodeId == n && k == 2 then halves + 1 else halves)
  {
    hide Commit, TokensRevoked, JoinsOf, IssuedTo;
  }

  lemma NextCounted(h: string -> string, root: Path, s: History, step: Step, n: string, halves: nat)
    requires RevokedKnown(s.mesh) && Counted(s, n, halves)
    ensures Counted(Next(h, root, s, step), n, if step.CutRevoke? && step.nodeId == n && step.k == 2 then halves + 1 else halves)
  {
    hide Counted, CheckJoin, JoinedUpTo, RevokedUpTo, Handlers.Restarted, Handlers.Next, RevokedKnown, VerifyToken, JoinRecorded;
    match step {
      case Join(nodeId, code, requested, token, t) =>
        if CheckJoin(h, s.mesh, nodeId, code, requested, t).None? {
          JoinedUpToCounted(h, s, nodeId, code, requested, token, t, 4, n, halves);
        }
      case CutJoin(nodeId, code, requested, token, t, k, readable, text) =>
        if CheckJoin(h, s.mesh, nodeId, code, requested, t).None? {
          var joined := JoinRecorded(s, nodeId, code, token, t, k).(mesh := JoinedUpTo(h, s.mesh, nodeId, code, requested, token, t, k));
          JoinedUpToCounted(h, s, nodeId, code, requested, token, t, k, n, halves);
          SameCounted(joined, joined.(mesh := RestartedMesh(joined.mesh, readable, text)), n, halves);
        } else {
          SameCounted(s, s.(mesh := RestartedMesh(s.mesh, readable, text)), n, halves);
        }
      case RevokeCall(nodeId, text) => RevokeCounted(h, root, s, nodeId, text, n, halves);
      case CutRevoke(nodeId, k, readable, text) => CutRevokeCounted(h, root, s, nodeId, k, readable, text, n, halves);
      case _ => SameCounted(s, Next(h, root, s, step), n, halves);
    }
  }

  lemma RevokeCounted(h: string -> string, root: Path, s: History, nodeId: string, text: string, n: string, halves: nat)
    requires Counted(s, n, halves)
    ensures Counted(Next(h, root, s, RevokeCall(nodeId, text)), n, halves)
  {
    hide RevokedUpTo, Counted;
    var after := Next(h, root, s, RevokeCall(nodeId, text));
    RevokedUpToCounted(s, nodeId, 4, text, n, halves);
    SameCounted(if nodeId in s.mesh.vault.state.nodes then s.(mesh := RevokedUpTo(s.mesh, nodeId, 4, text)) else s, after, n, halves);
  }

  lemma CutRevokeCounted(h: string -> string, root: Path, s: History, nodeId: string, k: nat, readable: bool, text: string, n: string, halves: nat)
    requires Counted(s, n, halves)
    ensures Counted(Next(h, root, s, CutRevoke(nodeId, k, readable, text)), n, if nodeId == n && k == 2 then halves + 1 else halves)
  {
    hide RevokedUpTo, Handlers.Restarted;
    var after := Next(h, root, s, CutRevoke(nodeId, k, readable, text));
    RevokedUpToCounted(s, nodeId, k, text, n, halves);
    if nodeId in s.mesh.vault.state.nodes {
      SameCounted(s.(mesh := RevokedUpTo(s.mesh, nodeId, k, text)), after, n, if nodeId == n && k == 2 then halves + 1 else halves);
    }
  }

  lemma {:induction false} RunCounted(h: string -> string, root: Path, steps: seq<Step>, n: string)
    requires GoodHash(h) && FreshRun(h, root, START, steps)
    ensures Counted(Run(h, root, START, steps), n, HalfRevoked(steps, n))
  {
    hide Next, Fresh, Counted;
    if steps == [] {
      StartCounted(n);
    } else {
      var front := steps[..|steps| - 1];
      RunCounted(h, root, front, n);
      RunKeepsSound(h, root, front);
      NextCounted(h, root, Run(h, root, START, front), steps[|steps| - 1], n, HalfRevoked(front, n));
    }
  }

  lemma StartCounted(n: string)
    ensures Counted(START, n, 0)
  {
  }

  /** In every run a node is issued at most one certificate more, and so joins at most once more, than
      a crash cut revocations of it after exactly two writes.  Without such a crash it joins once. */
  lemma NodeJoinsOncePerCut(h: string -> string, root: Path, steps: seq<Step>, n: string)
    requires GoodHash(h) && FreshRun(h, root, START, steps)
    ensures var s := Run(h, root, START, steps);
            JoinsOf(s.joins, n) <= IssuedTo(s.certified, n) <= 1 + HalfRevoked(steps, n)
  {
    RunCounted(h, root, steps, n);
    hide Run;
  }

  /** The certificate of n is revoked, but neither the revoked store nor the vault knows n. */
  predicate Reopened(m: Mesh, n: string) {
    n in m.certs && m.certs[n].revoked && n !in m.revoked && n !in m.vault.state.nodes
  }

  predicate CodeFits(h: string -> string, m: Mesh, n: string, code: string, requested: Requested, t: Times) {
    ValidNodeId(n) && code != "" && FindCode(h, m.codes, n, code, requested, t.checked).Some?
  }

  /** Once n has been issued a certificate, by a join or by one that was cut, it joins again with a
      code that fits exactly when its certificate is revoked while neither the revoked store nor the
      vault knows it; and that takes a revocation of n cut after exactly two writes for each
      certificate it was issued. */
  lemma EnrolsAgainIff(h: string -> string, root: Path, steps: seq<Step>, n: string, code: string, requested: Requested, t: Times)
    requires GoodHash(h) && FreshRun(h, root, START, steps) && IssuedTo(Run(h, root, START, steps).certified, n) >= 1
    ensures var s := Run(h, root, START, steps);
            && (CheckJoin(h, s.mesh, n, code, requested, t).None? <==> CodeFits(h, s.mesh, n, code, requested, t) && Reopened(s.mesh, n))
            && (Reopened(s.mesh, n) ==> HalfRevoked(steps, n) >= IssuedTo(s.certified, n))
  {
    var s := Run(h, root, START, steps);
    RunCounted(h, root, steps, n);
    RunKeepsSound(h, root, steps);
    hide Run, FindCode, FreshRun, CodesOk, TokensOk, JoinsDistinct, RevocationsKept;
    IssuedSome(s.certified, n);
    assert CertOk(s, n);
  }

  lemma {:induction false} IssuedSome(certified: seq<Certified>, n: string)
    ensures IssuedTo(certified, n) >= 1 <==> LastIssued(certified, n).Some?
  {
    if certified != [] {
      IssuedSome(certified[..|certified| - 1], n);
    }
  }

  lemma NextIssuesMore(h: string -> string, root: Path, s: History, step: Step, n: string)
    ensures IssuedTo(Next(h, root, s, step).certified, n) >= IssuedTo(s.certified, n)
    ensures step.CutJoin? && step.k >= 1 && step.nodeId == n && CheckJoin(h, s.mesh, n, step.code, step.requested, step.times).None? ==>
              IssuedTo(Next(h, root, s, step).certified, n) >= 1
  {
    hide CheckJoin, JoinedUpTo, RevokedUpTo, RestartedMesh, Handlers.Next, VerifyToken, JoinRecorded, IssuedTo;
    if step.Join? {
      JoinCounts(s, step.nodeId, step.code, step.token, step.times, 4, n);
    } else if step.CutJoin? {
      JoinCounts(s, step.nodeId, step.code, step.token, step.times, step.k, n);
    }
  }

  lemma {:induction false} IssuedStays(h: string -> string, root: Path, steps: seq<Step>, i: nat, n: string)
    requires i <= |steps|
    ensures IssuedTo(Run(h, root, START, steps).certified, n) >= IssuedTo(Run(h, root, START, steps[..i]).certified, n)
    decreases |steps|
  {
    hide Next, IssuedTo;
    if i == |steps| {
      assert steps[..i] == steps;
    } else {
      var front := steps[..|steps| - 1];
      assert front[..i] == steps[..i];
      IssuedStays(h, root, front, i, n);
      NextIssuesMore(h, root, Run(h, root, START, front), steps[|steps| - 1], n);
    }
  }

  /** After a join of n that a crash cut after its first write, a later join of n succeeds exactly so;
      in a run in which no revocation of n is cut after exactly two writes, never. */
  lemma CutJoinEnrolsIff(h: string -> string, root: Path, steps: seq<Step>, i: nat, n: string,
                         code: string, requested: Requested, later: Times)
    requires GoodHash(h) && FreshRun(h, root, START, steps) && i < |steps|
    requires var cut := steps[i];
             && cut.CutJoin? && cut.nodeId == n && 1 <= cut.k
             && CheckJoin(h, Run(h, root, START, steps[..i]).mesh, n, cut.code, cut.requested, cut.times).None?
    ensures var m := Run(h, root, START, steps).mesh;
            && (CheckJoin(h, m, n, code, requested, later).None? <==> CodeFits(h, m, n, code, requested, later) && Reopened(m, n))
            && (HalfRevoked(steps, n) == 0 ==> CheckJoin(h, m, n, code, requested, later).Some?)
  {
    hide Next, CheckJoin, CodeFits, Reopened, FreshRun, IssuedTo;
    NextIssuesMore(h, root, Run(h, root, START, steps[..i]), steps[i], n);
    assert steps[..i + 1][..i] == steps[..i];
    IssuedStays(h, root, steps, i + 1, n);
    EnrolsAgainIff(h, root, steps, n, code, requested, later);
  }
}
