/** No envelope gives two ledger rows. */
module ServerTrust {
  import opened Json
  import opened Results
  import opened Signing
  import opened Trust
  import opened Requests
  import opened ServerRuns
  import opened ServerSafety

  // ---- the run as the nonce store sees it ----

  /** The checks and restarts of a run. */
  function TrustSteps(c: Setup, start: real, steps: seq<Step>): seq<TrustRuns.Step> {
    if steps == [] then []
    else
      var front := steps[..|steps| - 1];
      TrustSteps(c, start, front) +
      match TrustStep(c, Run(c, start, front), steps[|steps| - 1])
      case None => []
      case Some(t) => [t]
  }

  lemma {:induction false} TrustIsTrustRun(c: Setup, start: real, steps: seq<Step>)
    ensures Run(c, start, steps).trust == TrustRuns.Run(c.trust, start, TrustSteps(c, start, steps))
  {
    hide AuthRuns.Run, AuthSteps, ChallengesAfter, PendingAfter, LinksAfter, LogAfter, TrustStep, TrustRuns.Next;
    if steps != [] {
      var front := steps[..|steps| - 1];
      TrustIsTrustRun(c, start, front);
      var t := TrustStep(c, Run(c, start, front), steps[|steps| - 1]);
      if t.Some? {
        assert (TrustSteps(c, start, front) + [t.value])[..|TrustSteps(c, start, front)|] == TrustSteps(c, start, front);
      } else {
        assert TrustSteps(c, start, front) + [] == TrustSteps(c, start, front);
      }
    }
  }

  /** Accepted envelopes stay in the history. */
  lemma AcceptedKept(c: Setup, s: Site, step: Step)
    ensures s.trust.accepted <= Next(c, s, step).trust.accepted
  {
    hide AuthRuns.Run, AuthSteps, ChallengesAfter, PendingAfter, LinksAfter, LogAfter, Screen, Signer;
  }

  lemma {:induction false} AcceptedGrows(c: Setup, start: real, steps: seq<Step>, k: nat)
    requires k <= |steps|
    ensures Run(c, start, steps[..k]).trust.accepted <= Run(c, start, steps).trust.accepted
    decreases |steps|
  {
    hide Next;
    if k == |steps| {
      assert steps[..k] == steps;
    } else {
      AcceptedGrows(c, start, steps[..|steps| - 1], k);
      assert steps[..|steps| - 1][..k] == steps[..k];
      AcceptedKept(c, Run(c, start, steps[..|steps| - 1]), steps[|steps| - 1]);
    }
  }

  /** The nonce and time an envelope is accepted with. */
  function EntryOf(c: Setup, message: Json): Option<Entry> {
    if !message.Obj? || !Get(message.fields, "nonce").Str? then None
    else
      match TimestampSeconds(c.trust.platform, Get(message.fields, "ts"))
      case None => None
      case Some(ts) => Some(Entry(Get(message.fields, "nonce").s, ts))
  }

  /** An admitted step adds its envelope to the history. */
  lemma AdmittedAccepts(c: Setup, s: Site, step: Step)
    requires PinsNamed(s) && Admitted(c, s, step)
    ensures EntryOf(c, EnvelopeOf(step).0).Some?
    ensures Next(c, s, step).trust.accepted == s.trust.accepted + [EntryOf(c, EnvelopeOf(step).0).value]
  {
    hide AuthRuns.Run, AuthSteps, ChallengesAfter, PendingAfter, LinksAfter, LogAfter, Screen, Signer, Kept, TimestampSeconds;
    var (message, now, saveTime) := EnvelopeOf(step);
    SignerNamed(c, s, step);
    PassedEnvelope(c.trust, s.trust.nonces, message, Signer(c, s, step).value, now, saveTime);
  }

  lemma RunPrefix(c: Setup, start: real, steps: seq<Step>, k: nat)
    requires k < |steps|
    ensures Run(c, start, steps[..k + 1]) == Next(c, Run(c, start, steps[..k]), steps[k])
  {
    hide Next;
    assert steps[..k + 1][..k] == steps[..k];
  }

  /** The place of a row's envelope among the accepted ones. */
  lemma RowEntry(c: Setup, start: real, steps: seq<Step>, l: Logged)
    requires CameFrom(c, start, steps, l) && !steps[l.at].Export?
    ensures var before, accepted := Run(c, start, steps[..l.at]).trust.accepted, Run(c, start, steps).trust.accepted;
            && l.entry == Some(|before|) && |before| < |accepted|
            && |before| < |Run(c, start, steps[..l.at + 1]).trust.accepted|
            && Some(accepted[|before|]) == EntryOf(c, EnvelopeOf(steps[l.at]).0)
  {
    hide Run, Next, Admitted, Says, EntryOf, AppendedBy;
    var s, step := Run(c, start, steps[..l.at]), steps[l.at];
    PinsHaveOrigin(c, start, steps[..l.at]);
    SignedSays(c, s, step);
    AdmittedAccepts(c, s, step);
    RunPrefix(c, start, steps, l.at);
    AcceptedGrows(c, start, steps, l.at + 1);
  }

  /** With at most `nonceLimit` accepted envelopes in any two windows of message time and a monotone
      clock, no two rows of the ledger came with the same envelope, whatever restarts happen. */
  lemma OneRowPerEnvelope(c: Setup, start: real, steps: seq<Step>)
    requires TrustRuns.Monotone(start, TrustSteps(c, start, steps))
    requires TrustRuns.Capped(Run(c, start, steps).trust.accepted, 2.0 * c.trust.window as real, c.trust.nonceLimit)
    ensures var log := Run(c, start, steps).log;
            && (forall i | 0 <= i < |log| :: log[i].at < |steps|)
            && forall i, j | 0 <= i < j < |log| && !steps[log[i].at].Export? && !steps[log[j].at].Export? ::
                 EntryOf(c, EnvelopeOf(steps[log[i].at]).0) != EntryOf(c, EnvelopeOf(steps[log[j].at]).0)
  {
    hide Run, Next, TrustSteps, TrustRuns.Run, TrustRuns.Monotone, TrustRuns.Capped, CameFrom, EntryOf;
    TrustIsTrustRun(c, start, steps);
    TrustRuns.NoEnvelopeAcceptedTwice(c.trust, start, TrustSteps(c, start, steps));
    RunLogOk(c, start, steps);
    BeforeLast(c, start, steps);
    var log := Run(c, start, steps).log;
    forall i, j | 0 <= i < j < |log| && !steps[log[i].at].Export? && !steps[log[j].at].Export?
      ensures EntryOf(c, EnvelopeOf(steps[log[i].at]).0) != EntryOf(c, EnvelopeOf(steps[log[j].at]).0)
    {
      assert CameFrom(c, start, steps, log[i]) && CameFrom(c, start, steps, log[j]);
      RowEntry(c, start, steps, log[i]);
      RowEntry(c, start, steps, log[j]);
      LaterEntry(c, start, steps, log[i].at, log[j].at);
    }
  }

  lemma LaterEntry(c: Setup, start: real, steps: seq<Step>, a: nat, b: nat)
    requires a < b <= |steps|
    ensures |Run(c, start, steps[..a + 1]).trust.accepted| <= |Run(c, start, steps[..b]).trust.accepted|
  {
    hide Run;
    AcceptedGrows(c, start, steps[..b], a + 1);
    assert steps[..b][..a + 1] == steps[..a + 1];
  }

  // ---- no request gives two rows ----

  /** A request that came before and waits no more never waits again. */
  lemma {:induction false} NeverWaitsAgain(c: Setup, start: real, steps: seq<Step>, k: nat, request: nat)
    requires request < k <= |steps| && request !in Run(c, start, steps[..k]).pending
    ensures request !in Run(c, start, steps).pending
    decreases |steps|
  {
    hide Next, PendingAfter;
    if k == |steps| {
      assert steps[..k] == steps;
    } else {
      var front := steps[..|steps| - 1];
      assert front[..k] == steps[..k];
      NeverWaitsAgain(c, start, front, k, request);
      RunLogOk(c, start, front);
      RunStep(c, start, steps);
      if request in Run(c, start, steps).pending {
        NextPending(c, Run(c, start, front), steps[|steps| - 1], request);
      }
    }
  }

  lemma BodyEndsWait(c: Setup, s: Site, step: Step)
    requires Awaited(s, step)
    ensures step.request !in PendingAfter(c, s, step)
  {
  }

  lemma AwaitedWaits(s: Site, step: Step)
    requires Awaited(s, step)
    ensures step.request in s.pending
  {
  }

  lemma BodyAwaited(c: Setup, s: Site, step: Step)
    requires ApiOf(step).Some? && Admitted(c, s, step)
    ensures Awaited(s, step)
  {
  }

  /** Each request gives at most one row: a second body for it changes nothing. */
  lemma OneRowPerRequest(c: Setup, start: real, steps: seq<Step>, i: nat, j: nat)
    requires var log := Run(c, start, steps).log; i < j < |log|
    ensures var log := Run(c, start, steps).log;
            && log[i].at < log[j].at < |steps|
            && (ApiOf(steps[log[i].at]).Some? && ApiOf(steps[log[j].at]).Some? ==> steps[log[i].at].request != steps[log[j].at].request)
  {
    hide Run, Next, CameFrom, Awaited, AppendedBy, PendingAfter;
    RunLogOk(c, start, steps);
    var log := Run(c, start, steps).log;
    assert CameFrom(c, start, steps, log[i]) && CameFrom(c, start, steps, log[j]);
    CameFromParts(c, start, steps, log[i]);
    CameFromParts(c, start, steps, log[j]);
    var a, b := log[i].at, log[j].at;
    if ApiOf(steps[a]).Some? && ApiOf(steps[b]).Some? {
      RowAwaited(c, start, steps, a);
      RowAwaited(c, start, steps, b);
      assert steps[..a + 1][..a] == steps[..a];
      RunStep(c, start, steps[..a + 1]);
      BodyEndsWait(c, Run(c, start, steps[..a]), steps[a]);
      assert steps[..b][..a + 1] == steps[..a + 1];
      NeverWaitsAgain(c, start, steps[..b], a + 1, steps[a].request);
      AwaitedWaits(Run(c, start, steps[..b]), steps[b]);
    }
  }

  /** A body that gave a row was awaited, by a request that came before. */
  lemma RowAwaited(c: Setup, start: real, steps: seq<Step>, at: nat)
    requires at < |steps| && ApiOf(steps[at]).Some? && AppendedBy(c, Run(c, start, steps[..at]), steps[at]).Some?
    ensures Awaited(Run(c, start, steps[..at]), steps[at]) && steps[at].request < at
  {
    hide Run, AppendedBy, Says, Admitted;
    PinsHaveOrigin(c, start, steps[..at]);
    SignedSays(c, Run(c, start, steps[..at]), steps[at]);
    BodyAwaited(c, Run(c, start, steps[..at]), steps[at]);
  }
}
