/** Failing closed and crashing: a broken chain freezes the vault, and a cut append never passes
    for another ledger. */
module VaultSafety {
  import opened Json
  import opened Results
  import opened Lines
  import opened Chain
  import opened Paths
  import opened Vault
  import opened Handlers
  import opened VaultRuns

  // ---- one append ----

  /** An append that ends without error started from a verifying chain, and leaves one exactly when
      the audit file was readable and the row has no line break; then it is longer by exactly one
      row in both files. */
  lemma AppendExtendsChain(h: string -> string, v: Vault, e: Event, now: string)
    requires Append(h, v, e, now).error.None?
    ensures Verifies(h, v.disk.ledger, v.disk.audit)
    ensures var after := Commit(v, Append(h, v, e, now)).disk;
            && (Verifies(h, after.ledger, after.audit) <==> Readable(v.disk.audit) && NoLineBreak(RowOf(e)))
            && Rows(after.ledger) == (if NoLineBreak(RowOf(e)) then Some(Rows(v.disk.ledger).value + [RowOf(e)]) else None)
            && (Readable(v.disk.audit) ==> |AuditRows(after.audit)| == |AuditRows(v.disk.audit)| + 1)
  {
    AppendOutcome(h, v, e, now);
    AppendVerifiesIff(h, v.disk.ledger, v.disk.audit, false, RowOf(e));
    AuditRowsAppend(v.disk.audit, AuditEntry(h, RowOf(e), v.disk.audit));
  }

  // ---- a broken chain ----

  /** Ledger, audit file, task files, other files, tasks and messages are the same. */
  ghost predicate SameRecords(v: Vault, w: Vault) {
    && v.disk.ledger == w.disk.ledger && v.disk.audit == w.disk.audit
    && v.disk.dirs == w.disk.dirs && v.disk.other == w.disk.other
    && v.state.tasks == w.state.tasks && v.state.messages == w.state.messages
  }

  lemma SavingKeepsRecords(v: Vault, effect: Effect)
    requires effect.state.tasks == v.state.tasks && effect.state.messages == v.state.messages
    requires effect.writes == [SaveState(effect.state)] || (effect.writes == [] && effect.state == v.state)
    ensures SameRecords(v, Commit(v, effect)) && (Synced(v) ==> Synced(Commit(v, effect)))
  {
    PerformOne(v.disk, SaveState(effect.state));
  }

  lemma {:induction false} MarkAllKeepsRecords(v: Vault, revoked: seq<string>, now: string)
    requires Synced(v)
    ensures SameRecords(v, MarkAll(v, revoked, now)) && Synced(MarkAll(v, revoked, now))
  {
    if revoked != [] {
      MarkAllKeepsRecords(v, revoked[..|revoked| - 1], now);
      var before := MarkAll(v, revoked[..|revoked| - 1], now);
      SavingKeepsRecords(before, MarkRevoked(before.state, revoked[|revoked| - 1], now));
    }
  }

  lemma BrokenStepChangesNothing(h: string -> string, root: Path, v: Vault, step: Step)
    requires !Verifies(h, v.disk.ledger, v.disk.audit) && Synced(v)
    ensures SameRecords(v, Next(h, root, v, step)) && Synced(Next(h, root, v, step))
  {
    match step {
      case RegisterStep(nodeId, role, ttl, now) => SavingKeepsRecords(v, Register(v.state, nodeId, role, ttl, now));
      case TouchStep(nodeId, now) => SavingKeepsRecords(v, Touch(v.state, nodeId, now));
      case RevokeStep(nodeId, now) => SavingKeepsRecords(v, Revoke(v.state, nodeId, now));
      case AuditStep =>
      case RestartStep(revoked, now) => MarkAllKeepsRecords(Vault(Load(v.disk), v.disk), revoked, now);
      case _ => SavingKeepsRecords(v, EnsureClean(h, v));
    }
  }

  /** While the chain is broken and no file is repaired from outside, no run of requests and
      restarts changes the ledger, the audit rows, the tasks, the messages or any other file, and
      the chain stays broken. */
  lemma {:induction false} BrokenChainFailsClosed(h: string -> string, root: Path, v: Vault, steps: seq<Step>)
    requires !Verifies(h, v.disk.ledger, v.disk.audit) && Synced(v)
    ensures var after := Run(h, root, v, steps);
            SameRecords(v, after) && Synced(after) && !Verifies(h, after.disk.ledger, after.disk.audit)
  {
    if steps != [] {
      BrokenChainFailsClosed(h, root, v, steps[..|steps| - 1]);
      BrokenStepChangesNothing(h, root, Run(h, root, v, steps[..|steps| - 1]), steps[|steps| - 1]);
    }
  }

  // ---- line breaks ----

  lemma {:induction false} RunVerifiesIff(h: string -> string, root: Path, v: Vault, steps: seq<Step>)
    requires Faithful(h, v) && forall step | step in steps :: Ready(step)
    ensures var after := Run(h, root, v, steps);
            if forall step | step in steps :: LineSafe(root, step) then Faithful(h, after)
            else !Verifies(h, after.disk.ledger, after.disk.audit) && Synced(after)
  {
    hide Verifies, Synced, Next, LineSafe, Ready;
    if steps != [] {
      var front, step := steps[..|steps| - 1], steps[|steps| - 1];
      RunVerifiesIff(h, root, v, front);
      assert forall x :: x in steps <==> x in front || x == step by {
        assert steps == front + [step];
      }
      StepVerifiesIff(h, root, Run(h, root, v, front), step);
    }
  }

  lemma StepVerifiesIff(h: string -> string, root: Path, v: Vault, step: Step)
    requires Ready(step) && (Faithful(h, v) || (!Verifies(h, v.disk.ledger, v.disk.audit) && Synced(v)))
    ensures var after := Next(h, root, v, step);
            if Faithful(h, v) && LineSafe(root, step) then Faithful(h, after)
            else !Verifies(h, after.disk.ledger, after.disk.audit) && Synced(after)
  {
    hide Next, LineSafe, Ready, Verifies;
    if !Faithful(h, v) {
      BrokenStepChangesNothing(h, root, v, step);
    } else if LineSafe(root, step) {
      NextKeepsFaithful(h, root, v, step);
    } else {
      NextBreaksChain(h, root, v, step);
      NextKeepsMirror(h, root, v, step);
    }
  }

  /** In every run from an empty vault the chain verifies at the end exactly when no row that the
      requests append holds a line break. */
  lemma ChainVerifiesIff(h: string -> string, root: Path, steps: seq<Step>)
    requires forall step | step in steps :: Ready(step)
    ensures var after := Run(h, root, EMPTY_VAULT, steps);
            Verifies(h, after.disk.ledger, after.disk.audit) <==> forall step | step in steps :: LineSafe(root, step)
  {
    EmptyVaultFaithful(h);
    RunVerifiesIff(h, root, EMPTY_VAULT, steps);
  }

  lemma SeparatorNotSafe(root: Path, e: Event, key: string, a: string, separator: char, b: string, now: string)
    requires key in e.payload && e.payload[key] == Str(a + [separator] + b) && Printable(Obj(e.payload))
    requires separator in {'\U{0085}', '\U{2028}', '\U{2029}'}
    ensures Ready(RelayStep(e, now)) && !LineSafe(root, RelayStep(e, now))
  {
    SeparatorBreaksRow(e.payload, key, a, separator, b);
    RowUnbrokenIff(e);
    hide NoLineBreak;
    assert Printable(RowOf(e));
  }

  /** One relayed message with one of the three characters in a string breaks the chain for good. */
  lemma LineSeparatorBreaksVault(h: string -> string, root: Path, e: Event, key: string, a: string, separator: char, b: string, now: string, steps: seq<Step>)
    requires key in e.payload && e.payload[key] == Str(a + [separator] + b) && Printable(Obj(e.payload))
    requires separator in {'\U{0085}', '\U{2028}', '\U{2029}'}
    requires forall step | step in steps :: Ready(step)
    ensures var after := Run(h, root, EMPTY_VAULT, [RelayStep(e, now)] + steps);
            !Verifies(h, after.disk.ledger, after.disk.audit)
  {
    var first := RelayStep(e, now);
    SeparatorNotSafe(root, e, key, a, separator, b, now);
    hide *;
    assert first in [first] + steps;
    ChainVerifiesIff(h, root, [first] + steps);
  }

  // ---- crashes ----

  predicate LeavesChain(w: Write) {
    w.TaskFile? || w.DropTaskFile? || w.SaveState?
  }

  lemma {:induction false} LeavesChainAll(d: Disk, ws: seq<Write>)
    requires forall w | w in ws :: LeavesChain(w)
    ensures PerformAll(d, ws).ledger == d.ledger && PerformAll(d, ws).audit == d.audit
  {
    if ws != [] {
      assert ws[|ws| - 1] in ws;
      LeavesChainAll(d, ws[..|ws| - 1]);
    }
  }

  /** The files after a crash that lets only the first `k` durable writes of an append through. */
  function CutDisk(h: string -> string, v: Vault, e: Event, now: string, k: nat): Disk
    requires k <= |Append(h, v, e, now).writes|
  {
    PerformAll(v.disk, Append(h, v, e, now).writes[..k])
  }

  lemma ApplyLeavesChain(s: State, e: Event, now: string)
    ensures forall w | w in Apply(s, e, now).writes :: LeavesChain(w)
  {
    if AppliedTask(e, now).Some? {
      var t := AppliedTask(e, now).value;
      assert forall w | w in DropsFor(t) :: w.DropTaskFile?;
    }
  }

  /** The durable writes of an append: the ledger row, the audit row, then nothing on the chain. */
  lemma AppendWrites(h: string -> string, v: Vault, e: Event, now: string) returns (rest: seq<Write>)
    requires Verifies(h, v.disk.ledger, v.disk.audit) && Printable(RowOf(e))
    ensures Append(h, v, e, now).writes ==
            [LedgerLines(WrittenLines(RowOf(e))), AuditLine(Value(AuditEntry(h, RowOf(e), v.disk.audit)))] + rest
    ensures forall w | w in rest :: LeavesChain(w)
  {
    var applied := Apply(v.state, e, now);
    ApplyLeavesChain(v.state, e, now);
    rest := if applied.error.Some? then applied.writes else applied.writes + [SaveState(Append(h, v, e, now).state)];
  }

  lemma CutWrites(d: Disk, lines: seq<Line>, auditLine: Line, rest: seq<Write>, k: nat)
    requires forall w | w in rest :: LeavesChain(w)
    requires k <= 2 + |rest|
    ensures var after := PerformAll(d, ([LedgerLines(lines), AuditLine(auditLine)] + rest)[..k]);
            && after.ledger == (if k == 0 then d.ledger else d.ledger + lines)
            && after.audit == if k <= 1 then d.audit else d.audit + [auditLine]
  {
    var writes := [LedgerLines(lines), AuditLine(auditLine)] + rest;
    if k == 0 {
      assert writes[..k] == [];
    } else if k == 1 {
      assert writes[..k] == [LedgerLines(lines)];
      PerformOne(d, LedgerLines(lines));
    } else {
      assert writes[..k] == [LedgerLines(lines), AuditLine(auditLine)] + rest[..k - 2];
      PerformAllConcat(d, [LedgerLines(lines), AuditLine(auditLine)], rest[..k - 2]);
      PerformTwo(d, LedgerLines(lines), AuditLine(auditLine));
      LeavesChainAll(PerformAll(d, [LedgerLines(lines), AuditLine(auditLine)]), rest[..k - 2]);
    }
  }

  lemma CutChain(h: string -> string, v: Vault, e: Event, now: string, k: nat)
    requires Verifies(h, v.disk.ledger, v.disk.audit) && Printable(RowOf(e))
    requires k <= |Append(h, v, e, now).writes|
    ensures var d := CutDisk(h, v, e, now, k);
            && d.ledger == (if k == 0 then v.disk.ledger else v.disk.ledger + WrittenLines(RowOf(e)))
            && d.audit == if k <= 1 then v.disk.audit else v.disk.audit + [Value(AuditEntry(h, RowOf(e), v.disk.audit))]
  {
    var rest := AppendWrites(h, v, e, now);
    CutWrites(v.disk, WrittenLines(RowOf(e)), Value(AuditEntry(h, RowOf(e), v.disk.audit)), rest, k);
  }

  /** Cut after any prefix of its writes, an append leaves a verifying chain over exactly the old
      ledger (nothing written), a chain that fails (only the ledger row written), or a verifying
      chain over exactly the new ledger (both rows written); with a line break in the row also the
      last chain fails. */
  lemma CutAppend(h: string -> string, v: Vault, e: Event, now: string, k: nat)
    requires Verifies(h, v.disk.ledger, v.disk.audit) && Readable(v.disk.audit) && Printable(RowOf(e))
    requires k <= |Append(h, v, e, now).writes|
    ensures var d := CutDisk(h, v, e, now, k);
            && (Verifies(h, d.ledger, d.audit) <==> k == 0 || (k >= 2 && NoLineBreak(RowOf(e))))
            && (k == 0 ==> Rows(d.ledger) == Rows(v.disk.ledger))
            && (k >= 2 && NoLineBreak(RowOf(e)) ==> Rows(d.ledger) == Some(Rows(v.disk.ledger).value + [RowOf(e)]))
  {
    CutChain(h, v, e, now, k);
    PartialAppendFails(h, v.disk.ledger, v.disk.audit, RowOf(e));
    AppendVerifiesIff(h, v.disk.ledger, v.disk.audit, false, RowOf(e));
  }

  /** Where an append can stop inside its first two writes. */
  datatype Tear = InLedgerRow | BetweenRows | InAuditRow

  /** The files when it stops there: a torn row is a line that does not parse. */
  function TornDisk(h: string -> string, v: Vault, e: Event, tear: Tear): Disk {
    match tear
    case InLedgerRow => Perform(v.disk, LedgerLines([Garbage]))
    case BetweenRows => Perform(v.disk, LedgerLines(WrittenLines(RowOf(e))))
    case InAuditRow => Perform(Perform(v.disk, LedgerLines(WrittenLines(RowOf(e)))), AuditLine(Garbage))
  }

  /** Stopping between the rows is cutting after one write. */
  lemma CutBetweenRows(h: string -> string, v: Vault, e: Event, now: string)
    requires Verifies(h, v.disk.ledger, v.disk.audit) && Printable(RowOf(e))
    ensures |Append(h, v, e, now).writes| >= 2 && CutDisk(h, v, e, now, 1) == TornDisk(h, v, e, BetweenRows)
  {
    var rest := AppendWrites(h, v, e, now);
    var writes := Append(h, v, e, now).writes;
    assert writes[..1] == [LedgerLines(WrittenLines(RowOf(e)))];
    PerformOne(v.disk, LedgerLines(WrittenLines(RowOf(e))));
  }

  /** A row torn in the middle, or a ledger row without its audit row, leaves a chain that fails. */
  lemma TornAppend(h: string -> string, v: Vault, e: Event, tear: Tear)
    requires Verifies(h, v.disk.ledger, v.disk.audit)
    ensures !Verifies(h, TornDisk(h, v, e, tear).ledger, TornDisk(h, v, e, tear).audit)
  {
    PartialAppendFails(h, v.disk.ledger, v.disk.audit, RowOf(e));
  }

  /** After an append that stopped in or between its two rows, the restarted vault accepts nothing
      more. */
  lemma CutAppendBlocksLater(h: string -> string, root: Path, v: Vault, e: Event, tear: Tear, revoked: seq<string>, now: string, steps: seq<Step>)
    requires Verifies(h, v.disk.ledger, v.disk.audit) && v.disk.state.Some?
    ensures var d := TornDisk(h, v, e, tear);
            var after := Run(h, root, Restarted(d, revoked, now), steps);
            && after.disk.ledger == d.ledger && after.disk.audit == d.audit && after.disk.dirs == d.dirs
            && after.state.tasks == d.state.value.tasks && after.state.messages == d.state.value.messages
            && !Verifies(h, after.disk.ledger, after.disk.audit)
  {
    var d := TornDisk(h, v, e, tear);
    TornAppend(h, v, e, tear);
    MarkAllKeepsRecords(Vault(Load(d), d), revoked, now);
    BrokenChainFailsClosed(h, root, Restarted(d, revoked, now), steps);
  }
}
