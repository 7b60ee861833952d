/** Revocation through the API: each one uses up a challenge issued for that node. */
module Challenges {
  import opened Json
  import opened Auth
  import Chain

  datatype Challenge = Challenge(nodeId: string, phrase: string, expiresAt: real)

  type Open = map<string, Challenge>

  const LIFETIME := 60.0

  datatype Reply = Done | Forbidden | Mismatch | NotFound

  function Phrase(nodeId: string): string {
    "REVOKE " + nodeId
  }

  predicate Known(m: Mesh, nodeId: Json) {
    nodeId.Str? && nodeId.s in m.vault.state.nodes
  }

  /** `api_mesh_prepare_revoke` for the owner. */
  function Prepared(h: string -> string, m: Mesh, open: Open, nodeId: Json, challenge: string, now: real): (Mesh, Open, Reply) {
    var audited := if nodeId.Str? then m.(vault := Handlers.Audited(h, m.vault)) else m;
    if !Known(m, nodeId) then (audited, open, NotFound)
    else (audited, open[challenge := Challenge(nodeId.s, Phrase(nodeId.s), now + LIFETIME)], Done)
  }

  datatype Confirmation = Confirmation(challenge: Json, nodeId: Json, phrase: Json, meshPhrase: Json)

  /** `api_mesh_revoke` for the owner: the challenge is used up before anything is checked. */
  function Confirmed(m: Mesh, open: Open, c: Confirmation, now: real, text: string): (Mesh, Open, Reply) {
    if !c.challenge.Str? || c.challenge.s !in open then (m, open, Forbidden)
    else
      var record, rest := open[c.challenge.s], open - {c.challenge.s};
      if record.expiresAt < now || c.nodeId != Str(record.nodeId) then (m, rest, Forbidden)
      else if c.phrase != Str(record.phrase) || c.meshPhrase != Str("CONFIRM MESH REVOKE") then (m, rest, Mismatch)
      else if record.nodeId !in m.vault.state.nodes then (m, rest, NotFound)
      else (RevokedNode(m, record.nodeId, text), rest, Done)
  }

  /** A challenge is issued exactly for a node that the vault knows, asks for the phrase with its id, and can be
      used for 60 seconds; every other challenge stays.  On the way the state notes whether the chain verifies. */
  lemma PrepareIff(h: string -> string, m: Mesh, open: Open, nodeId: Json, challenge: string, now: real)
    ensures var (after, issued, reply) := Prepared(h, m, open, nodeId, challenge, now);
            && (reply == Done <==> nodeId.Str? && nodeId.s in m.vault.state.nodes) && (reply == Done || reply == NotFound)
            && (reply == Done ==>
                  && challenge in issued && issued[challenge].nodeId == nodeId.s && issued[challenge].phrase == "REVOKE " + nodeId.s
                  && issued[challenge].expiresAt == now + 60.0
                  && forall ch | ch != challenge :: (ch in issued <==> ch in open) && (ch in open ==> issued[ch] == open[ch]))
            && (reply != Done ==> issued == open)
            && after.tokens == m.tokens && after.codes == m.codes && after.certs == m.certs && after.revoked == m.revoked
            && after.vault.disk == m.vault.disk
            && after.vault.state == if nodeId.Str? then m.vault.state.(tampered := !Chain.Verifies(h, m.vault.disk.ledger, m.vault.disk.audit))
                                    else m.vault.state
  {
  }

  /** A node is revoked exactly when an open challenge of it has not expired, the node, its phrase and the mesh
      phrase are confirmed, and the vault knows it.  Whatever the outcome, the challenge is gone, and no other. */
  lemma ConfirmIff(m: Mesh, open: Open, c: Confirmation, now: real, text: string)
    ensures var (after, rest, reply) := Confirmed(m, open, c, now, text);
            && (reply == Done <==>
                  && c.challenge.Str? && c.challenge.s in open && now <= open[c.challenge.s].expiresAt
                  && c.nodeId == Str(open[c.challenge.s].nodeId) && c.phrase == Str(open[c.challenge.s].phrase)
                  && c.meshPhrase == Str("CONFIRM MESH REVOKE") && open[c.challenge.s].nodeId in m.vault.state.nodes)
            && (reply == Done ==> after == RevokedNode(m, open[c.challenge.s].nodeId, text))
            && (reply != Done ==> after == m)
            && forall ch :: (ch in rest <==> ch in open && c.challenge != Str(ch)) && (ch in rest ==> rest[ch] == open[ch])
  {
    hide RevokedNode;
  }

  // ---- runs ----

  /** `Elsewhere` stands for everything else that changes the mesh. */
  datatype Step =
    | Prepare(nodeId: Json, challenge: string, now: real)
    | Confirm(c: Confirmation, now: real, text: string)
    | Elsewhere(mesh: Mesh)
    | Restart

  datatype Record = Record(challenge: string, nodeId: string, at: real)

  datatype History = History(mesh: Mesh, open: Open, issued: seq<Record>, revocations: seq<Record>)

  function Next(h: string -> string, s: History, step: Step): History {
    match step
    case Prepare(nodeId, challenge, now) =>
      var (mesh, open, reply) := Prepared(h, s.mesh, s.open, nodeId, challenge, now);
      s.(mesh := mesh, open := open,
         issued := if reply == Done && nodeId.Str? then s.issued + [Record(challenge, nodeId.s, now)] else s.issued)
    case Confirm(c, now, text) =>
      var (mesh, open, reply) := Confirmed(s.mesh, s.open, c, now, text);
      s.(mesh := mesh, open := open,
         revocations := if reply == Done && c.challenge.Str? && c.nodeId.Str?
                        then s.revocations + [Record(c.challenge.s, c.nodeId.s, now)] else s.revocations)
    case Elsewhere(mesh) => s.(mesh := mesh)
    case Restart => s.(open := map[])
  }

  function Run(h: string -> string, start: Mesh, steps: seq<Step>): History {
    if steps == [] then History(start, map[], [], [])
    else Next(h, Run(h, start, steps[..|steps| - 1]), steps[|steps| - 1])
  }

  function Clock(step: Step, before: real): real {
    match step
    case Prepare(_, _, now) => now
    case Confirm(_, now, _) => now
    case _ => before
  }

  function ClockAfter(start: real, steps: seq<Step>): real {
    if steps == [] then start
    else Clock(steps[|steps| - 1], ClockAfter(start, steps[..|steps| - 1]))
  }

  /** The clock is monotone and challenges are fresh. */
  predicate Proper(h: string -> string, mesh: Mesh, start: real, steps: seq<Step>) {
    steps == [] ||
    var front, step := steps[..|steps| - 1], steps[|steps| - 1];
    && Proper(h, mesh, start, front)
    && Clock(step, ClockAfter(start, front)) >= ClockAfter(start, front)
    && (step.Prepare? ==> forall r | r in Run(h, mesh, front).issued :: r.challenge != step.challenge)
  }

  /** `r` answers a challenge issued for its node at most 60 s before. */
  ghost predicate Answers(issued: seq<Record>, r: Record) {
    exists i | i in issued :: i.challenge == r.challenge && i.nodeId == r.nodeId && i.at <= r.at <= i.at + LIFETIME
  }

  ghost predicate DistinctChallenges(records: seq<Record>) {
    forall a, b | 0 <= a < b < |records| :: records[a].challenge != records[b].challenge
  }

  /** An open challenge was issued as it stands, and no revocation has used it. */
  ghost predicate OpenOk(s: History, now: real) {
    forall ch | ch in s.open ::
      && s.open[ch].phrase == Phrase(s.open[ch].nodeId)
      && (exists i | i in s.issued :: i.challenge == ch && i.nodeId == s.open[ch].nodeId && i.at + LIFETIME == s.open[ch].expiresAt && i.at <= now)
      && forall r | r in s.revocations :: r.challenge != ch
  }

  ghost predicate Ok(s: History, now: real) {
    && OpenOk(s, now) && DistinctChallenges(s.issued) && DistinctChallenges(s.revocations)
    && (forall r | r in s.revocations :: Answers(s.issued, r))
  }

  lemma PrepareKeepsOk(h: string -> string, s: History, nodeId: Json, challenge: string, now: real, before: real)
    requires Ok(s, before) && before <= now && forall r | r in s.issued :: r.challenge != challenge
    ensures Ok(Next(h, s, Prepare(nodeId, challenge, now)), now)
  {
    var after := Next(h, s, Prepare(nodeId, challenge, now));
    if Known(s.mesh, nodeId) {
      var record := Record(challenge, nodeId.s, now);
      assert after.issued == s.issued + [record] && record in after.issued;
      forall r | r in s.revocations ensures Answers(after.issued, r) && r.challenge != challenge {
        var i :| i in s.issued && i.challenge == r.challenge && i.nodeId == r.nodeId && i.at <= r.at <= i.at + LIFETIME;
        assert i in after.issued;
      }
      forall ch | ch in s.open
        ensures exists i | i in after.issued :: i.challenge == ch && i.nodeId == s.open[ch].nodeId && i.at + LIFETIME == s.open[ch].expiresAt && i.at <= now
      {
        var i :| i in s.issued && i.challenge == ch && i.nodeId == s.open[ch].nodeId && i.at + LIFETIME == s.open[ch].expiresAt && i.at <= before;
        assert i in after.issued;
      }
    }
  }

  lemma ConfirmKeepsOk(h: string -> string, s: History, c: Confirmation, now: real, text: string, before: real)
    requires Ok(s, before) && before <= now
    ensures Ok(Next(h, s, Confirm(c, now, text)), now)
  {
    hide RevokedNode, Phrase;
    var after := Next(h, s, Confirm(c, now, text));
    if after.revocations != s.revocations {
      var r := Record(c.challenge.s, c.nodeId.s, now);
      assert after.revocations == s.revocations + [r];
      var record := s.open[r.challenge];
      var i :| i in s.issued && i.challenge == r.challenge && i.nodeId == record.nodeId && i.at + LIFETIME == record.expiresAt && i.at <= before;
      assert Answers(s.issued, r);
    }
  }

  lemma {:induction false} RunOk(h: string -> string, mesh: Mesh, start: real, steps: seq<Step>)
    requires Proper(h, mesh, start, steps)
    ensures Ok(Run(h, mesh, steps), ClockAfter(start, steps))
  {
    if steps != [] {
      var front, step := steps[..|steps| - 1], steps[|steps| - 1];
      RunOk(h, mesh, start, front);
      var s, before := Run(h, mesh, front), ClockAfter(start, front);
      match step {
        case Prepare(nodeId, challenge, now) => PrepareKeepsOk(h, s, nodeId, challenge, now, before);
        case Confirm(c, now, text) => ConfirmKeepsOk(h, s, c, now, text, before);
        case _ =>
      }
    }
  }

  /** In every run each revocation through the API consumes exactly one challenge, one that was
      issued for that node at most 60 s earlier and that no other revocation consumes. */
  lemma RevocationsConsumeChallenges(h: string -> string, mesh: Mesh, start: real, steps: seq<Step>)
    requires Proper(h, mesh, start, steps)
    ensures var s := Run(h, mesh, steps);
            && DistinctChallenges(s.issued) && DistinctChallenges(s.revocations)
            && forall r | r in s.revocations :: Answers(s.issued, r) && r.challenge !in s.open
  {
    RunOk(h, mesh, start, steps);
  }
}
