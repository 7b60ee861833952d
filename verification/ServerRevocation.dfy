/** A revoked node at the server: what it can still do, and that every node that writes was enrolled. */
module ServerRevocation {
  import opened Json
  import opened Results
  import opened Chain
  import opened Signing
  import opened Trust
  import opened Vault
  import opened Tasks
  import opened VaultRuns
  import opened Paths
  import opened Auth
  import opened Requests
  import opened Decoding
  import opened ServerRuns
  import opened ServerSafety
  import AuthSoundness

  // ---- who writes ----

  /** The step appends a row of `n` that comes with an envelope. */
  ghost predicate WritesAs(c: Setup, s: Site, step: Step, n: string) {
    && !step.Export? && AppendedBy(c, s, step).Some?
    && AppendedBy(c, s, step).value.Obj? && Get(AppendedBy(c, s, step).value.fields, "node") == Str(n)
  }

  /** The step is a frame of an open link, or the body of a waiting request, that is pinned to n. */
  predicate PinnedTo(s: Site, step: Step, n: string) {
    if step.Frame? then step.link in s.links && s.links[step.link] == n
    else Awaited(s, step) && s.pending[step.request].node == n
  }

  /** What the handler asks of a verified envelope of n: a relayed event nothing more; a task its
      operation, an action that is neither a list nor an object, and a known status; a file its
      operation, the write action, and a name and a content it accepts. */
  predicate Fits(c: Setup, step: Step, n: string) {
    var p := SignedParts(n, EnvelopeOf(step).0);
    match step
    case Relay(_, _, _, _, _) => true
    case Frame(_, _, _, _, _) => true
    case Task(_, _, _, _, _) => p.op == "task" && FitsTask(p.payload)
    case File(_, _, _, _, _) => p.op == "file_update" && FitsWrite(c, p.payload)
    case _ => false
  }

  predicate FitsTask(payload: map<string, Json>) {
    !Get(payload, "action").List? && !Get(payload, "action").Obj? && StatusGiven(payload)
  }

  predicate FitsWrite(c: Setup, payload: map<string, Json>) {
    var content := if "content" in payload then payload["content"] else Str("");
    && Get(payload, "action") == Str("write") && Get(payload, "path").Str? && content.Str?
    && c.reading(content.s).utf8Length <= 1_048_576 && SafePath(c.root, Get(payload, "path").s).Some?
  }

  lemma RowSigned(c: Setup, s: Site, step: Step)
    requires PinsNamed(s) && !step.Export? && AppendedBy(c, s, step).Some?
    ensures Admitted(c, s, step) && Writes(step) && Signer(c, s, step).Some?
    ensures AppendedBy(c, s, step).value.Obj? && Get(AppendedBy(c, s, step).value.fields, "node") == Str(Signer(c, s, step).value)
  {
    hide AppendedBy, Signer, CheckOf, Says;
    SignedSays(c, s, step);
    AppendedWrites(c, s, step);
    SaysNode(c, step, Signer(c, s, step).value, AppendedBy(c, s, step).value);
  }

  lemma SignerPinned(c: Setup, s: Site, step: Step, n: string)
    requires Writes(step) && !step.Export?
    ensures Signer(c, s, step) == Some(n) <==> PinnedTo(s, step, n)
  {
    hide VerifyToken;
  }

  lemma PrintableRow(e: Event)
    requires Printable(Obj(e.payload))
    ensures Printable(RowOf(e))
  {
  }

  lemma TaskRowIff(root: Path, payload: map<string, Json>, node: string, sig: string, k: Handlers.Stamps)
    requires Printable(Obj(payload))
    ensures StepRow(root, Handlers.TaskStep(payload, node, sig, k)).Some? <==> FitsTask(payload)
  {
    hide Printable, Handlers.RequestedTask, ParseStatus, RowOf, Handlers.TaskEvent, StatusGiven;
    var raw, action := Handlers.RequestedTask(payload, node), Handlers.ActionOf(payload);
    PrintableRequest(payload, node);
    Decoding.Requested(payload, node, k);
    if Normalized(raw, k.freshTaskId, k.stored).Some? {
      PrintableSaved(raw, node, action, sig, k);
    }
  }

  lemma FileRowIff(c: Setup, payload: map<string, Json>, p: Signed, k: Handlers.Stamps)
    requires FileActionOf(payload).Write?
    ensures StepRow(c.root, WriteStep(c, FileActionOf(payload), p, k)).Some? <==> FitsWrite(c, payload)
  {
    hide SafePath, Handlers.FileEvent, RowOf;
    BlankRefused(c.root);
    var action := FileActionOf(payload);
    if action.path.Str? && action.content.Str? {
      FileRowPrintable(p.node, Handlers.WrittenName(c.root, action.path.s), p.sig, k);
    }
  }

  lemma FileRowPrintable(node: string, name: string, sig: string, k: Handlers.Stamps)
    ensures Printable(RowOf(Handlers.FileEvent(node, name, sig, k)))
  {
    PrintableRow(Handlers.FileEvent(node, name, sig, k));
  }

  /** An admitted envelope gives a row exactly when it fits its handler and the chain verifies. */
  lemma RowIff(c: Setup, s: Site, step: Step, n: string)
    requires PinsNamed(s) && Writes(step) && !step.Export? && Admitted(c, s, step) && Signer(c, s, step) == Some(n)
    ensures AppendedBy(c, s, step).Some? <==>
            Fits(c, step, n) && Verifies(c.hash, s.auth.mesh.vault.disk.ledger, s.auth.mesh.vault.disk.audit)
  {
    hide Verifies, Verify, Screen, Printable, SafePath, Handlers.RequestedTask, Handlers.ActionOf, StepRow, FitsTask, FitsWrite,
         WriteStep, FileActionOf, Signer, SignedParts;
    var (message, now, saveTime) := EnvelopeOf(step);
    SignerNamed(c, s, step);
    PassedEnvelope(c.trust, s.trust.nonces, message, n, now, saveTime);
    SignedPayload(n, message);
    var p := SignedParts(n, message);
    match step {
      case Relay(_, _, _, _, k) => RelayRow(c.root, p, k);
      case Frame(_, _, _, _, k) => RelayRow(c.root, p, k);
      case Task(_, _, _, _, k) => TaskRowIff(c.root, p.payload, p.node, p.sig, k);
      case File(_, _, _, _, k) =>
        if FileActionOf(p.payload).Write? {
          FileRowIff(c, p.payload, p, k);
        } else {
          NoWriteFits(c, p.payload);
        }
    }
  }

  lemma NoWriteFits(c: Setup, payload: map<string, Json>)
    requires !FileActionOf(payload).Write?
    ensures !FitsWrite(c, payload)
  {
  }

  lemma SignedPayload(n: string, message: Json)
    requires message.Obj? && Get(message.fields, "payload").Obj? && Printable(Get(message.fields, "payload"))
    ensures SignedParts(n, message).node == n && Printable(Obj(SignedParts(n, message).payload))
  {
    hide Printable;
  }

  lemma RelayRow(root: Path, p: Signed, k: Handlers.Stamps)
    requires Printable(Obj(p.payload))
    ensures StepRow(root, Handlers.RelayStep(SignedEvent(p, k), k.applied)).Some?
  {
    hide Printable, RowOf;
    PrintableRow(SignedEvent(p, k));
  }

  /** A step appends a row of n exactly when it comes through an open link or a waiting request that is
      pinned to n, its envelope verifies and fits its handler, and the chain verifies: whether n has
      been revoked since it was pinned makes no difference. */
  lemma WritesIff(c: Setup, s: Site, step: Step, n: string)
    requires PinsNamed(s) && !step.Export?
    ensures WritesAs(c, s, step, n) <==>
            && Writes(step) && PinnedTo(s, step, n) && Admitted(c, s, step) && Fits(c, step, n)
            && Verifies(c.hash, s.auth.mesh.vault.disk.ledger, s.auth.mesh.vault.disk.audit)
  {
    hide AppendedBy, Signer, CheckOf, Says, Fits, PinnedTo, Verifies;
    if WritesAs(c, s, step, n) {
      RowSigned(c, s, step);
    }
    if Writes(step) && Admitted(c, s, step) {
      SignerPinned(c, s, step, n);
      if Signer(c, s, step) == Some(n) {
        RowIff(c, s, step, n);
        if AppendedBy(c, s, step).Some? {
          RowSigned(c, s, step);
        }
      }
    }
  }

  // ---- revocation ----

  lemma RevokedToken(c: Setup, s: Site, token: string, now: real, n: string)
    requires n in s.auth.mesh.revoked
    ensures VerifyToken(c.hash, s.auth.mesh, token, now) != Some(n)
  {
  }

  lemma RevokedPinsNot(c: Setup, s: Site, step: Step, n: string)
    requires n in s.auth.mesh.revoked
    ensures !Pins(c, s, step, n)
  {
    hide VerifyToken;
    match step {
      case Arrive(_, bearer, now, _) => RevokedToken(c, s, bearer, now, n);
      case OpenLink(_, token, now, _) => RevokedToken(c, s, token, now, n);
      case _ =>
    }
  }

  /** What is pinned to n in `after` was pinned to it in `before`. */
  ghost predicate NoNewPins(before: Site, after: Site, n: string) {
    && (forall request | request in after.pending && after.pending[request].node == n ::
          request in before.pending && before.pending[request].node == n)
    && (forall link | link in after.links && after.links[link] == n :: link in before.links && before.links[link] == n)
  }

  lemma NextPinsNothing(c: Setup, s: Site, step: Step, n: string)
    requires n in s.auth.mesh.revoked
    ensures n in Next(c, s, step).auth.mesh.revoked && NoNewPins(s, Next(c, s, step), n)
  {
    hide AuthRuns.Run, AuthSteps, TrustStep, LogAfter, ChallengesAfter, PendingAfter, LinksAfter, Pins;
    AuthRuns.RunKeepsRevoked(c.hash, c.root, s.auth, AuthSteps(c, s, step));
    RevokedPinsNot(c, s, step, n);
    var after := Next(c, s, step);
    forall request | request in after.pending && after.pending[request].node == n
      ensures request in s.pending && s.pending[request].node == n
    {
      NextPending(c, s, step, request);
    }
    forall link | link in after.links && after.links[link] == n ensures link in s.links && s.links[link] == n {
      NextLinks(c, s, step, link);
    }
  }

  /** Once n is revoked no run pins anything more to it, and n stays revoked. */
  lemma {:induction false} RevokedPinsNothing(c: Setup, start: real, steps: seq<Step>, k: nat, n: string)
    requires k <= |steps| && n in Run(c, start, steps[..k]).auth.mesh.revoked
    ensures n in Run(c, start, steps).auth.mesh.revoked && NoNewPins(Run(c, start, steps[..k]), Run(c, start, steps), n)
    decreases |steps|
  {
    hide Next;
    if k == |steps| {
      assert steps[..k] == steps;
    } else {
      assert steps[..|steps| - 1][..k] == steps[..k];
      RevokedPinsNothing(c, start, steps[..|steps| - 1], k, n);
      NextPinsNothing(c, Run(c, start, steps[..|steps| - 1]), steps[|steps| - 1], n);
    }
  }

  /** From a revocation of n on, every row of n but those of exports comes through a request whose
      headers came, or a link that was opened, before the revocation and was pinned to n then, in any
      run with restarts, even ones that fall back to the default state. */
  lemma RevokedRowsPinnedBefore(c: Setup, start: real, steps: seq<Step>, k: nat, l: Logged, n: string)
    requires k <= |steps| && n in Run(c, start, steps[..k]).auth.mesh.revoked
    requires l in Run(c, start, steps).log && l.at >= k
    ensures l.at < |steps|
    ensures !steps[l.at].Export? ==> l.row.Obj?
    ensures !steps[l.at].Export? && Get(l.row.fields, "node") == Str(n) ==> PinnedTo(Run(c, start, steps[..k]), steps[l.at], n)
  {
    hide Run, CameFrom, AppendedBy, Signer, Admitted, PinnedTo, NoNewPins, PinsOk;
    RunLogOk(c, start, steps);
    var log := Run(c, start, steps).log;
    var i :| 0 <= i < |log| && log[i] == l;
    assert CameFrom(c, start, steps, log[i]);
    CameFromParts(c, start, steps, l);
    var s, step := Run(c, start, steps[..l.at]), steps[l.at];
    if !step.Export? {
      assert steps[..l.at][..k] == steps[..k];
      PinsHaveOrigin(c, start, steps[..l.at]);
      RowSigned(c, s, step);
      if Get(l.row.fields, "node") == Str(n) {
        RevokedPinsNothing(c, start, steps[..l.at], k, n);
        PinsHaveOrigin(c, start, steps[..k]);
        SignerPinned(c, s, step, n);
        StillPinned(c, start, steps, k, l.at, n);
      }
    }
  }

  /** What a step uses was pinned in the same handler before. */
  lemma StillPinned(c: Setup, start: real, steps: seq<Step>, k: nat, at: nat, n: string)
    requires k <= at < |steps| && PinnedTo(Run(c, start, steps[..at]), steps[at], n)
    requires NoNewPins(Run(c, start, steps[..k]), Run(c, start, steps[..at]), n)
    requires PinsOk(c, start, steps[..at]) && PinsOk(c, start, steps[..k])
    ensures PinnedTo(Run(c, start, steps[..k]), steps[at], n)
  {
    hide Run, VerifyToken;
  }

  /** n is revoked, and no waiting request and no link is pinned to it. */
  ghost predicate ShutOut(s: Site, n: string) {
    && n in s.auth.mesh.revoked
    && (forall request | request in s.pending :: s.pending[request].node != n)
    && (forall link | link in s.links :: s.links[link] != n)
  }

  /** What a confirmed revocation leaves as it is. */
  lemma RevocationKeeps(c: Setup, s: Site, step: Step)
    requires step.ConfirmRevoke?
    ensures var after := Next(c, s, step);
            && after.pending == s.pending && after.links == s.links && after.trust == s.trust
            && SameChain(after.auth.mesh.vault, s.auth.mesh.vault)
  {
    hide AuthRuns.Run, AuthSteps, LogAfter, ChallengesAfter;
    OtherLedger(c, s, step);
  }

  lemma ConfirmRevokes(c: Setup, s: Site, step: Step, n: string)
    requires step.ConfirmRevoke? && RevokedBy(s.challenges, step.confirmation, step.now) == Some(n)
    requires n in s.auth.mesh.vault.state.nodes
    ensures n in Next(c, s, step).auth.mesh.revoked
  {
    hide AuthRuns.Run, AuthRuns.Next, TrustStep, LogAfter, ChallengesAfter, CallSteps, RevokedBy;
    RunOne(c.hash, c.root, s.auth, AuthRuns.RevokeCall(n, step.text));
    AuthRuns.RevokeCallRevokes(c.hash, c.root, s.auth, n, step.text);
  }

  /** A confirmed revocation of a known node without waiting requests and open links shuts it out. */
  lemma RevocationShutsOut(c: Setup, s: Site, step: Step, n: string)
    requires step.ConfirmRevoke? && RevokedBy(s.challenges, step.confirmation, step.now) == Some(n)
    requires n in s.auth.mesh.vault.state.nodes
    requires forall request | request in s.pending :: s.pending[request].node != n
    requires forall link | link in s.links :: s.links[link] != n
    ensures ShutOut(Next(c, s, step), n)
  {
    hide Next, RevokedBy;
    ConfirmRevokes(c, s, step, n);
    RevocationKeeps(c, s, step);
  }

  /** From then on no row of n but those of exports is ever appended. */
  lemma RevokedWritesNothing(c: Setup, start: real, steps: seq<Step>, k: nat, l: Logged, n: string)
    requires k <= |steps| && ShutOut(Run(c, start, steps[..k]), n)
    requires l in Run(c, start, steps).log && l.at >= k
    ensures l.at < |steps|
    ensures !steps[l.at].Export? ==> l.row.Obj? && Get(l.row.fields, "node") != Str(n)
  {
    hide Run;
    RevokedRowsPinnedBefore(c, start, steps, k, l, n);
  }

  /** A revocation of n does not end a request of n that waits for its body: the headers of a relay
      request came, n is revoked by a confirmation, and the envelope that comes after it is appended. */
  lemma WaitingRequestOutlivesRevocation(c: Setup, s: Site, n: string, confirm: Step, relay: Step)
    requires PinsNamed(s) && confirm.ConfirmRevoke? && RevokedBy(s.challenges, confirm.confirmation, confirm.now) == Some(n)
    requires n in s.auth.mesh.vault.state.nodes && Verifies(c.hash, s.auth.mesh.vault.disk.ledger, s.auth.mesh.vault.disk.audit)
    requires relay.Relay? && relay.request in s.pending && s.pending[relay.request] == Waiting(RelayApi, n)
    requires Verify(c.trust, s.trust.nonces, relay.message, Some(n), relay.now, relay.saveTime).1.Verified?
    ensures var after := Next(c, s, confirm); n in after.auth.mesh.revoked && WritesAs(c, after, relay, n)
  {
    hide Next, Verifies, Verify, RevokedBy, WritesAs;
    var after := Next(c, s, confirm);
    RevocationKeeps(c, s, confirm);
    ConfirmRevokes(c, s, confirm, n);
    WritesIff(c, after, relay, n);
  }

  // ---- enrolment ----

  /** The run as vault and enrolment see it. */
  function AuthRunOf(c: Setup, start: real, steps: seq<Step>): seq<AuthRuns.Step> {
    if steps == [] then []
    else
      var front := steps[..|steps| - 1];
      AuthRunOf(c, start, front) + AuthSteps(c, Run(c, start, front), steps[|steps| - 1])
  }

  lemma {:induction false} RunConcat(c: Setup, s: AuthRuns.History, a: seq<AuthRuns.Step>, b: seq<AuthRuns.Step>)
    ensures AuthRuns.Run(c.hash, c.root, s, a + b) == AuthRuns.Run(c.hash, c.root, AuthRuns.Run(c.hash, c.root, s, a), b)
    decreases |b|
  {
    hide AuthRuns.Next;
    if b == [] {
      assert a + b == a;
    } else {
      RunConcat(c, s, a, b[..|b| - 1]);
      assert (a + b)[..|a + b| - 1] == a + b[..|b| - 1];
    }
  }

  lemma {:induction false} AuthIsAuthRun(c: Setup, start: real, steps: seq<Step>)
    ensures Run(c, start, steps).auth == AuthRuns.Run(c.hash, c.root, AuthRuns.START, AuthRunOf(c, start, steps))
  {
    hide AuthRuns.Next, AuthSteps, TrustStep, TrustRuns.Next, ChallengesAfter, LinksAfter, LogAfter;
    if steps != [] {
      var front := steps[..|steps| - 1];
      AuthIsAuthRun(c, start, front);
      RunConcat(c, AuthRuns.START, AuthRunOf(c, start, front), AuthSteps(c, Run(c, start, front), steps[|steps| - 1]));
    }
  }

  lemma {:induction false} FreshPrefix(c: Setup, a: seq<AuthRuns.Step>, b: seq<AuthRuns.Step>)
    requires AuthRuns.FreshRun(c.hash, c.root, AuthRuns.START, a + b)
    ensures AuthRuns.FreshRun(c.hash, c.root, AuthRuns.START, a)
    decreases |b|
  {
    hide AuthRuns.Run, AuthRuns.Fresh;
    if b == [] {
      assert a + b == a;
    } else {
      assert (a + b)[..|a + b| - 1] == a + b[..|b| - 1];
      FreshPrefix(c, a, b[..|b| - 1]);
    }
  }

  lemma {:induction false} AuthRunPrefix(c: Setup, start: real, steps: seq<Step>, k: nat)
    requires k <= |steps| && AuthRuns.FreshRun(c.hash, c.root, AuthRuns.START, AuthRunOf(c, start, steps))
    ensures AuthRuns.FreshRun(c.hash, c.root, AuthRuns.START, AuthRunOf(c, start, steps[..k]))
    decreases |steps|
  {
    hide Run, AuthSteps, AuthRuns.FreshRun;
    if k == |steps| {
      assert steps[..k] == steps;
    } else {
      var front := steps[..|steps| - 1];
      FreshPrefix(c, AuthRunOf(c, start, front), AuthSteps(c, Run(c, start, front), steps[|steps| - 1]));
      AuthRunPrefix(c, start, front, k);
      assert front[..k] == steps[..k];
    }
  }

  /** At step `at` the node n had joined with `token`, by exactly one join that consumed a code of its
      own, and had not been revoked. */
  ghost predicate Enrolled(c: Setup, start: real, steps: seq<Step>, at: nat, token: string, n: string)
    requires at <= |steps|
  {
    var auth := Run(c, start, steps[..at]).auth;
    n !in auth.revocations && exists i: nat :: AuthSoundness.OnlyIssuer(auth, i, token, n)
  }

  lemma TokenEnrolled(c: Setup, start: real, steps: seq<Step>, at: nat, token: string, now: real, n: string)
    requires at <= |steps| && GoodHash(c.hash)
    requires AuthRuns.FreshRun(c.hash, c.root, AuthRuns.START, AuthRunOf(c, start, steps))
    requires VerifyToken(c.hash, Run(c, start, steps[..at]).auth.mesh, token, now) == Some(n)
    ensures Enrolled(c, start, steps, at, token, n)
  {
    hide Run, AuthRunOf, AuthRuns.Run, AuthRuns.FreshRun, VerifyToken, AuthSoundness.OnlyIssuer;
    AuthRunPrefix(c, start, steps, at);
    AuthIsAuthRun(c, start, steps[..at]);
    AuthSoundness.AuthenticationSound(c.hash, c.root, AuthRunOf(c, start, steps[..at]), token, now);
  }

  /** In every run with fresh codes and tokens, the node of every row but those of exports was
      enrolled when its token authenticated: when the headers of the request came, or at the handshake
      of the link. */
  lemma RowNodeEnrolled(c: Setup, start: real, steps: seq<Step>, i: nat)
    requires GoodHash(c.hash) && AuthRuns.FreshRun(c.hash, c.root, AuthRuns.START, AuthRunOf(c, start, steps))
    requires i < |Run(c, start, steps).log|
    ensures var l := Run(c, start, steps).log[i];
            && l.at < |steps|
            && (!steps[l.at].Export? ==>
                  exists n, token, at: nat :: at <= l.at && Enrolled(c, start, steps, at, token, n) && Says(c, steps[l.at], n, l.row))
  {
    hide Run, AuthRunOf, AuthRuns.FreshRun, Says, VerifyToken, CameFrom, EnvelopeStood, Enrolled;
    EveryRowIsAuthorised(c, start, steps);
    var l := Run(c, start, steps).log[i];
    assert Authorised(c, start, steps, l);
    if !steps[l.at].Export? {
      var n :| n != "" && TokenStood(c, start, steps, l.at, n) && EnvelopeStood(c, start, steps, l.at, n) && Says(c, steps[l.at], n, l.row);
      var at := if steps[l.at].Frame? then steps[l.at].link else steps[l.at].request;
      match steps[at] {
        case OpenLink(_, token, now, _) => TokenEnrolled(c, start, steps, at, token, now, n);
        case Arrive(_, bearer, now, _) => TokenEnrolled(c, start, steps, at, bearer, now, n);
      }
    }
  }
}
