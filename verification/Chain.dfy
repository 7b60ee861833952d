/** The ledger and its audit hash chain: when a pair of files verifies and what that binds. */
module Chain {
  import opened Json
  import opened Results
  import opened Lines
  import opened Text
  import opened Canon

  /** One line of a JSON-lines file as it is read back. */
  datatype Line = Blank | Garbage | Value(v: Json)

  /** The hash is only known to be injective and never empty. */
  ghost predicate GoodHash(h: string -> string) {
    && (forall x, y :: h(x) == h(y) ==> x == y)
    && (forall x :: h(x) != "")
  }

  /** The values of the non-blank lines, `None` when a line does not parse. */
  function Rows(lines: seq<Line>): Option<seq<Json>> {
    if lines == [] then Some([])
    else
      var last := lines[|lines| - 1];
      match Rows(lines[..|lines| - 1])
      case None => None
      case Some(rows) => if last.Garbage? then None else if last.Blank? then Some(rows) else Some(rows + [last.v])
  }

  /** The lines of a row as `append_event` writes it and `verify_audit_chain` reads it back: the
      pieces that `splitlines` cuts its text into.  Only the whole text reads as the row.  (A later
      piece may happen to be a JSON text of its own; the first one never is.) */
  function WrittenLines(row: Json): (lines: seq<Line>)
    ensures |lines| >= 1
  {
    var text := Canonical(row);
    var pieces := Pieces(text);
    seq(|pieces|, i requires 0 <= i < |pieces| => if pieces[i] == text then Value(row) else Garbage)
  }

  /** Every non-blank line is an object. */
  predicate Readable(lines: seq<Line>) {
    forall l | l in lines :: l.Blank? || (l.Value? && l.v.Obj?)
  }

  /** `_audit_lines`: one unreadable line empties the whole file. */
  function AuditRows(lines: seq<Line>): seq<Json> {
    if Readable(lines) && Rows(lines).Some? then Rows(lines).value else []
  }

  function EntryHash(h: string -> string, row: Json): string {
    h(Canonical(row))
  }

  function LinkHash(h: string -> string, id: Json, previous: string, entryHash: string): string {
    h(Canonical(Obj(map["ledger_id" := id, "prev_hash" := Str(previous), "entry_hash" := Str(entryHash)])))
  }

  /** The hash a ledger ends in. */
  function HashOf(h: string -> string, rows: seq<Json>): string {
    if rows == [] then ""
    else
      var row := rows[|rows| - 1];
      LinkHash(h, if row.Obj? then Get(row.fields, "id") else Null, HashOf(h, rows[..|rows| - 1]), EntryHash(h, row))
  }

  /** The fields of an audit row that verification looks at. */
  datatype Checked = Checked(ledgerId: Json, hasId: bool, prevHash: Json, entryHash: Json, hash: Json)

  function CheckedFields(audit: Json): Checked
    requires audit.Obj?
  {
    var f := audit.fields;
    Checked(Get(f, "ledger_id"), "ledger_id" in f, if "prev_hash" in f then f["prev_hash"] else Str(""),
            Get(f, "entry_hash"), Get(f, "hash"))
  }

  /** What the checked fields must be for `row` after a ledger that ends in hash `previous`. */
  function Expected(h: string -> string, row: Json, previous: string): Checked
    requires row.Obj?
  {
    var id := Get(row.fields, "id");
    Checked(id, true, Str(previous), Str(EntryHash(h, row)), Str(LinkHash(h, id, previous, EntryHash(h, row))))
  }

  predicate RowMatches(h: string -> string, row: Json, audit: Json, previous: string) {
    row.Obj? && audit.Obj? && Printable(row) && CheckedFields(audit) == Expected(h, row, previous)
  }

  predicate Linked(h: string -> string, rows: seq<Json>, audits: seq<Json>) {
    && |rows| == |audits|
    && forall i | 0 <= i < |rows| :: RowMatches(h, rows[i], audits[i], HashOf(h, rows[..i]))
  }

  /** `verify_audit_chain` on the lines of the two files. */
  predicate Verifies(h: string -> string, ledger: seq<Line>, audit: seq<Line>) {
    Rows(ledger).Some? && Linked(h, Rows(ledger).value, AuditRows(audit))
  }

  /** The last hash as `audit_status` reports it. */
  function LastHash(audit: seq<Line>): Json {
    var rows := AuditRows(audit);
    if rows == [] then Str("")
    else if rows[|rows| - 1].Obj? then Get(rows[|rows| - 1].fields, "hash") else Null
  }

  // ---- binding ----

  lemma LinkHashInjective(h: string -> string, id1: Json, prev1: string, entry1: string, id2: Json, prev2: string, entry2: string)
    requires GoodHash(h) && LinkHash(h, id1, prev1, entry1) == LinkHash(h, id2, prev2, entry2)
    ensures id1 == id2 && prev1 == prev2 && entry1 == entry2
  {
    var m1 := map["ledger_id" := id1, "prev_hash" := Str(prev1), "entry_hash" := Str(entry1)];
    var m2 := map["ledger_id" := id2, "prev_hash" := Str(prev2), "entry_hash" := Str(entry2)];
    CanonicalInjective(Obj(m1), Obj(m2));
    assert m1["ledger_id"] == m2["ledger_id"] && m1["prev_hash"] == m2["prev_hash"] && m1["entry_hash"] == m2["entry_hash"];
  }

  lemma HashOfEmpty(h: string -> string, rows: seq<Json>)
    requires GoodHash(h)
    ensures HashOf(h, rows) == "" <==> rows == []
  {
    hide Canonical;
  }

  /** Equal final hashes come from equal ledgers. */
  lemma {:induction false} HashOfInjective(h: string -> string, rows1: seq<Json>, rows2: seq<Json>)
    requires GoodHash(h) && HashOf(h, rows1) == HashOf(h, rows2)
    ensures rows1 == rows2
  {
    hide LinkHash, Canonical, Get;
    HashOfEmpty(h, rows1);
    HashOfEmpty(h, rows2);
    if rows1 != [] && rows2 != [] {
      var n1, n2 := |rows1| - 1, |rows2| - 1;
      var row1, row2 := rows1[n1], rows2[n2];
      LinkHashInjective(h, if row1.Obj? then Get(row1.fields, "id") else Null, HashOf(h, rows1[..n1]), EntryHash(h, row1),
                        if row2.Obj? then Get(row2.fields, "id") else Null, HashOf(h, rows2[..n2]), EntryHash(h, row2));
      CanonicalInjective(row1, row2);
      HashOfInjective(h, rows1[..n1], rows2[..n2]);
      assert rows1 == rows1[..n1] + [row1] && rows2 == rows2[..n2] + [row2];
    }
  }

  /** In a verifying pair the reported last hash is the hash of the whole ledger. */
  lemma LastHashIsHashOf(h: string -> string, ledger: seq<Line>, audit: seq<Line>)
    requires Verifies(h, ledger, audit)
    ensures LastHash(audit) == Str(HashOf(h, Rows(ledger).value))
  {
    var rows, audits := Rows(ledger).value, AuditRows(audit);
    if rows != [] {
      var n := |rows| - 1;
      assert RowMatches(h, rows[n], audits[n], HashOf(h, rows[..n]));
    }
  }

  /** Two verifying pairs with the same last hash hold the same ledger, the same number of audit
      rows and the same checked audit fields. */
  lemma ChainBinds(h: string -> string, ledger1: seq<Line>, audit1: seq<Line>, ledger2: seq<Line>, audit2: seq<Line>)
    requires GoodHash(h) && Verifies(h, ledger1, audit1) && Verifies(h, ledger2, audit2)
    requires LastHash(audit1) == LastHash(audit2)
    ensures Rows(ledger1) == Rows(ledger2)
    ensures |AuditRows(audit1)| == |AuditRows(audit2)|
    ensures forall i | 0 <= i < |AuditRows(audit1)| ::
              && AuditRows(audit1)[i].Obj? && AuditRows(audit2)[i].Obj?
              && CheckedFields(AuditRows(audit1)[i]) == CheckedFields(AuditRows(audit2)[i])
  {
    LastHashIsHashOf(h, ledger1, audit1);
    LastHashIsHashOf(h, ledger2, audit2);
    HashOfInjective(h, Rows(ledger1).value, Rows(ledger2).value);
    var rows := Rows(ledger1).value;
    forall i | 0 <= i < |rows|
      ensures && AuditRows(audit1)[i].Obj? && AuditRows(audit2)[i].Obj?
              && CheckedFields(AuditRows(audit1)[i]) == CheckedFields(AuditRows(audit2)[i])
    {
      assert RowMatches(h, rows[i], AuditRows(audit1)[i], HashOf(h, rows[..i]));
      assert RowMatches(h, rows[i], AuditRows(audit2)[i], HashOf(h, rows[..i]));
    }
  }

  /** With one file fixed, any change to the checked contents of the other is rejected. */
  lemma TamperingRejected(h: string -> string, ledger: seq<Line>, audit: seq<Line>, ledger': seq<Line>, audit': seq<Line>)
    requires GoodHash(h) && Verifies(h, ledger, audit)
    ensures Rows(ledger') != Rows(ledger) ==> !Verifies(h, ledger', audit)
    ensures Verifies(h, ledger, audit') ==>
              && |AuditRows(audit')| == |AuditRows(audit)|
              && forall i | 0 <= i < |AuditRows(audit)| ::
                   && AuditRows(audit)[i].Obj? && AuditRows(audit')[i].Obj?
                   && CheckedFields(AuditRows(audit')[i]) == CheckedFields(AuditRows(audit)[i])
  {
    if Verifies(h, ledger', audit) {
      ChainBinds(h, ledger, audit, ledger', audit);
    }
    if Verifies(h, ledger, audit') {
      LastHashIsHashOf(h, ledger, audit);
      LastHashIsHashOf(h, ledger, audit');
      ChainBinds(h, ledger, audit, ledger, audit');
    }
  }

  // ---- appending ----

  /** The hash `append_event` links to.  A clean chain always ends in a text. */
  function PreviousHash(audit: seq<Line>): string {
    match LastHash(audit)
    case Str(s) => s
    case _ => ""
  }

  function AuditEntry(h: string -> string, entry: Json, audit: seq<Line>): Json
    requires entry.Obj?
  {
    var id, previous, entryHash := Get(entry.fields, "id"), PreviousHash(audit), EntryHash(h, entry);
    Obj(map["ledger_id" := id, "prev_hash" := Str(previous), "entry_hash" := Str(entryHash),
            "hash" := Str(LinkHash(h, id, previous, entryHash)), "ts" := Get(entry.fields, "ts")])
  }

  // ---- the chain on the fields of its rows ----

  /** The values of the lines, in order. */
  function Values(lines: seq<Line>): seq<Json> {
    if lines == [] then [] else (if lines[0].Value? then [lines[0].v] else []) + Values(lines[1..])
  }

  lemma ValuesFirst(line: Line, rest: seq<Line>)
    ensures Values([line] + rest) == (if line.Value? then [line.v] else []) + Values(rest)
  {
    assert ([line] + rest)[1..] == rest;
  }

  lemma {:induction false} ValuesAppend(lines: seq<Line>, line: Line)
    ensures Values(lines + [line]) == Values(lines) + if line.Value? then [line.v] else []
  {
    if lines == [] {
      assert lines + [line] == [line] + [];
      ValuesFirst(line, []);
    } else {
      var first, rest := lines[0], lines[1..];
      ValuesAppend(rest, line);
      ValuesFirst(first, rest);
      ValuesFirst(first, rest + [line]);
      hide Values;
      assert lines == [first] + rest;
      assert lines + [line] == [first] + (rest + [line]);
    }
  }

  lemma {:induction false} RowsIff(lines: seq<Line>)
    ensures Rows(lines) == if Garbage in lines then None else Some(Values(lines))
  {
    if lines != [] {
      var front, last := lines[..|lines| - 1], lines[|lines| - 1];
      RowsIff(front);
      ValuesAppend(front, last);
      assert lines == front + [last];
      assert Garbage in lines <==> Garbage in front || last == Garbage;
      assert Values(front) + [] == Values(front);
    }
  }

  /** The text a link hashes. */
  function LinkText(id: Json, previous: Json, entryHash: Json): string {
    "{\"entry_hash\":" + Canonical(entryHash) + ",\"ledger_id\":" + Canonical(id) + ",\"prev_hash\":" + Canonical(previous) + "}"
  }

  /** An audit row links a row: it names its id, the hash before it (the empty text at the start), the hash of its
      canonical text, and the hash of those three. */
  ghost predicate Links(h: string -> string, row: Json, audit: Json, before: Json) {
    && row.Obj? && audit.Obj? && Printable(row)
    && var f := audit.fields;
       var id, entryHash := Get(row.fields, "id"), Str(h(Canonical(row)));
       && "ledger_id" in f && f["ledger_id"] == id && Get(f, "entry_hash") == entryHash
       && (if "prev_hash" in f then f["prev_hash"] else Str("")) == before
       && before.Str? && Get(f, "hash") == Str(h(LinkText(id, before, entryHash)))
  }

  function HashBefore(audits: seq<Json>, i: nat): Json
    requires i <= |audits|
  {
    if i == 0 then Str("") else if audits[i - 1].Obj? then Get(audits[i - 1].fields, "hash") else Null
  }

  lemma LinkWritten(h: string -> string, id: Json, previous: string, entryHash: string)
    ensures LinkHash(h, id, previous, entryHash) == h(LinkText(id, Str(previous), Str(entryHash)))
  {
    hide Canonical, InOrder, Join;
    var fields := map["ledger_id" := id, "prev_hash" := Str(previous), "entry_hash" := Str(entryHash)];
    var keys := ["entry_hash", "ledger_id", "prev_hash"];
    var texts := seq(3, i requires 0 <= i < 3 => MemberText(fields, keys[i]));
    KeysInOrder();
    assert fields.Keys == {"entry_hash", "ledger_id", "prev_hash"};
    ObjectWritten(fields, keys, texts);
    ThreeJoined(texts);
    MembersPlain(fields, "entry_hash");
    MembersPlain(fields, "ledger_id");
    MembersPlain(fields, "prev_hash");
    LinkPieces(Canonical(Str(entryHash)), Canonical(id), Canonical(Str(previous)), texts);
  }

  lemma MembersPlain(fields: map<string, Json>, key: string)
    requires forall i | 0 <= i < |key| :: key[i] >= ' ' && key[i] != '\"' && key[i] != '\\'
    ensures MemberText(fields, key) == "\"" + key + "\"" + ":" + Canonical(Get(fields, key))
  {
    hide Canonical;
    PlainWritten(key);
  }

  lemma LinkPieces(entryHash: string, id: string, previous: string, texts: seq<string>)
    requires |texts| == 3
    requires texts[0] == "\"" + "entry_hash" + "\"" + ":" + entryHash
    requires texts[1] == "\"" + "ledger_id" + "\"" + ":" + id
    requires texts[2] == "\"" + "prev_hash" + "\"" + ":" + previous
    ensures "{" + (texts[0] + "," + texts[1] + "," + texts[2]) + "}" ==
            "{\"entry_hash\":" + entryHash + ",\"ledger_id\":" + id + ",\"prev_hash\":" + previous + "}"
  {
    KeyTexts();
    Reassociate("\"" + "entry_hash" + "\"" + ":", "\"" + "ledger_id" + "\"" + ":", "\"" + "prev_hash" + "\"" + ":", entryHash, id, previous);
  }

  lemma KeyTexts()
    ensures "{" + ("\"" + "entry_hash" + "\"" + ":") == "{\"entry_hash\":"
    ensures "," + ("\"" + "ledger_id" + "\"" + ":") == ",\"ledger_id\":"
    ensures "," + ("\"" + "prev_hash" + "\"" + ":") == ",\"prev_hash\":"
  {
  }

  lemma Reassociate(a: string, b: string, c: string, x: string, y: string, z: string)
    ensures "{" + ((a + x) + "," + (b + y) + "," + (c + z)) + "}" == ("{" + a) + x + ("," + b) + y + ("," + c) + z + "}"
  {
    assert "{" + ((a + x) + "," + (b + y) + "," + (c + z)) == "{" + (a + x) + "," + (b + y) + "," + (c + z);
    assert "{" + (a + x) + "," + (b + y) == ("{" + a) + x + ("," + b) + y;
  }

  lemma ThreeJoined(texts: seq<string>)
    requires |texts| == 3
    ensures Join(texts, ',') == texts[0] + "," + texts[1] + "," + texts[2]
  {
    var rest := texts[1..];
    JoinFirst(texts, "");
    JoinFirst(rest, "");
    JoinFirst(rest[1..], "");
    assert Join(texts, ',') + "" == texts[0] + ("," + (rest[0] + ("," + (rest[1..][0] + ""))));
  }

  lemma KeysInOrder()
    ensures InOrder(["entry_hash", "ledger_id", "prev_hash"], {"entry_hash", "ledger_id", "prev_hash"})
  {
    FirstDiffers("entry_hash", "ledger_id");
    FirstDiffers("entry_hash", "prev_hash");
    FirstDiffers("ledger_id", "prev_hash");
    ThreeInOrder("entry_hash", "ledger_id", "prev_hash");
  }

  lemma ThreeInOrder(a: string, b: string, c: string)
    requires Before(a, b) && Before(a, c) && Before(b, c)
    ensures InOrder([a, b, c], {a, b, c})
  {
    hide Before;
  }

  lemma {:induction false} HashesBefore(h: string -> string, rows: seq<Json>, audits: seq<Json>, i: nat)
    requires i <= |rows| == |audits|
    requires forall j | 0 <= j < i :: RowMatches(h, rows[j], audits[j], HashOf(h, rows[..j]))
    ensures HashBefore(audits, i) == Str(HashOf(h, rows[..i]))
  {
    hide Canonical;
    if i > 0 {
      assert rows[..i][..i - 1] == rows[..i - 1];
      assert RowMatches(h, rows[i - 1], audits[i - 1], HashOf(h, rows[..i - 1]));
    }
  }

  lemma LinksIff(h: string -> string, row: Json, audit: Json, previous: string)
    ensures Links(h, row, audit, Str(previous)) <==> RowMatches(h, row, audit, previous)
  {
    hide Canonical, LinkText, LinkHash, Printable;
    if row.Obj? {
      LinkWritten(h, Get(row.fields, "id"), previous, h(Canonical(row)));
    }
  }

  lemma {:induction false} RowsLinkUp(h: string -> string, rows: seq<Json>, audits: seq<Json>, n: nat)
    requires n <= |rows| == |audits|
    ensures (forall i | 0 <= i < n :: RowMatches(h, rows[i], audits[i], HashOf(h, rows[..i]))) <==>
            (forall i | 0 <= i < n :: Links(h, rows[i], audits[i], HashBefore(audits, i)))
  {
    hide RowMatches, Links, HashOf, HashBefore;
    if n > 0 {
      RowsLinkUp(h, rows, audits, n - 1);
      if forall i | 0 <= i < n - 1 :: RowMatches(h, rows[i], audits[i], HashOf(h, rows[..i])) {
        HashesBefore(h, rows, audits, n - 1);
        LinksIff(h, rows[n - 1], audits[n - 1], HashOf(h, rows[..n - 1]));
      }
    }
  }

  /** The chain verifies exactly when every line of the ledger parses, the audit file has as many rows, and each
      audit row links its ledger row to the one before; an audit file with a line that is no object counts as
      empty. */
  lemma VerifiesIff(h: string -> string, ledger: seq<Line>, audit: seq<Line>)
    ensures var rows := Values(ledger);
            var audits := if forall l | l in audit :: l.Blank? || (l.Value? && l.v.Obj?) then Values(audit) else [];
            Verifies(h, ledger, audit) <==>
            Garbage !in ledger && |rows| == |audits| && forall i | 0 <= i < |rows| :: Links(h, rows[i], audits[i], HashBefore(audits, i))
  {
    hide RowMatches, Links, HashOf, HashBefore;
    RowsIff(ledger);
    RowsIff(audit);
    if |Values(ledger)| == |AuditRows(audit)| {
      RowsLinkUp(h, Values(ledger), AuditRows(audit), |Values(ledger)|);
    }
  }

  /** What `append_event` writes to the audit file links the new row to the last one, and repeats its time. */
  lemma AuditEntryLinks(h: string -> string, ledger: seq<Line>, row: Json, audit: seq<Line>)
    requires Verifies(h, ledger, audit) && row.Obj? && Printable(row)
    ensures var audits := if forall l | l in audit :: l.Blank? || (l.Value? && l.v.Obj?) then Values(audit) else [];
            var entry := AuditEntry(h, row, audit);
            && Links(h, row, entry, HashBefore(audits, |audits|))
            && entry.fields.Keys == {"ledger_id", "prev_hash", "entry_hash", "hash", "ts"} && entry.fields["ts"] == Get(row.fields, "ts")
  {
    hide Canonical, LinkText, LinkHash, Printable, HashOf, Links;
    RowsIff(audit);
    LastHashIsHashOf(h, ledger, audit);
    LinksIff(h, row, AuditEntry(h, row, audit), PreviousHash(audit));
  }

  lemma RowsAppend(lines: seq<Line>, line: Line)
    ensures Rows(lines + [line]) ==
            if Rows(lines).None? || line.Garbage? then None
            else if line.Blank? then Rows(lines)
            else Some(Rows(lines).value + [line.v])
  {
    assert (lines + [line])[..|lines|] == lines;
  }

  lemma {:induction false} GarbageSpoils(lines: seq<Line>, i: nat)
    requires i < |lines| && lines[i].Garbage?
    ensures Rows(lines).None?
  {
    if i < |lines| - 1 {
      GarbageSpoils(lines[..|lines| - 1], i);
    }
  }

  lemma {:induction false} RowsConcatNone(lines: seq<Line>, more: seq<Line>)
    requires Rows(lines).None?
    ensures Rows(lines + more).None?
    decreases |more|
  {
    if more == [] {
      assert lines + more == lines;
    } else {
      RowsConcatNone(lines, more[..|more| - 1]);
      assert lines + more == (lines + more[..|more| - 1]) + [more[|more| - 1]];
      RowsAppend(lines + more[..|more| - 1], more[|more| - 1]);
    }
  }

  /** A row reads back as the one line it was written as exactly when it has no line break;
      otherwise its first line does not parse. */
  lemma WrittenRow(row: Json)
    ensures NoLineBreak(row) <==> WrittenLines(row) == [Value(row)]
    ensures !NoLineBreak(row) ==> WrittenLines(row)[0] == Garbage
  {
    CanonicalPieces(row);
  }

  lemma RowsAppendWritten(lines: seq<Line>, row: Json)
    ensures Rows(lines + WrittenLines(row)) ==
            if Rows(lines).Some? && NoLineBreak(row) then Some(Rows(lines).value + [row]) else None
  {
    WrittenRow(row);
    if Rows(lines).None? {
      RowsConcatNone(lines, WrittenLines(row));
    } else if NoLineBreak(row) {
      RowsAppend(lines, Value(row));
    } else {
      assert (lines + WrittenLines(row))[|lines|] == Garbage;
      GarbageSpoils(lines + WrittenLines(row), |lines|);
    }
  }

  lemma ReadableRows(lines: seq<Line>)
    requires Readable(lines)
    ensures Rows(lines).Some?
  {
    if lines != [] {
      assert lines[|lines| - 1] in lines;
      ReadableRows(lines[..|lines| - 1]);
    }
  }

  lemma ReadableAppend(lines: seq<Line>, line: Line)
    ensures Readable(lines + [line]) <==> Readable(lines) && (line.Blank? || (line.Value? && line.v.Obj?))
  {
    forall l ensures l in lines + [line] <==> l in lines || l == line {
    }
  }

  lemma AuditRowsAppend(audit: seq<Line>, entry: Json)
    requires entry.Obj?
    ensures Readable(audit) ==> AuditRows(audit + [Value(entry)]) == AuditRows(audit) + [entry]
    ensures !Readable(audit) ==> AuditRows(audit + [Value(entry)]) == []
    ensures AuditRows(audit + [Garbage]) == []
  {
    ReadableAppend(audit, Value(entry));
    ReadableAppend(audit, Garbage);
    RowsAppend(audit, Value(entry));
    if Readable(audit) {
      ReadableRows(audit);
    }
  }

  lemma LinkedAppend(h: string -> string, rows: seq<Json>, audits: seq<Json>, row: Json, audit: Json)
    requires Linked(h, rows, audits) && RowMatches(h, row, audit, HashOf(h, rows))
    ensures Linked(h, rows + [row], audits + [audit])
  {
    forall i | 0 <= i < |rows| + 1
      ensures RowMatches(h, (rows + [row])[i], (audits + [audit])[i], HashOf(h, (rows + [row])[..i]))
    {
      if i < |rows| {
        assert (rows + [row])[..i] == rows[..i];
        assert RowMatches(h, rows[i], audits[i], HashOf(h, rows[..i]));
      } else {
        assert (rows + [row])[..i] == rows;
      }
    }
  }

  /** The lines of the audit file after a row is written.  On a file whose last row lacks its line
      break (`torn`) the row continues that line, and two texts on one line do not parse. */
  function AuditWritten(audit: seq<Line>, torn: bool, row: Json): seq<Line> {
    if Continues(audit, torn) then audit[..|audit| - 1] + [Garbage] else audit + [Value(row)]
  }

  predicate Continues(audit: seq<Line>, torn: bool) {
    torn && audit != [] && !audit[|audit| - 1].Blank?
  }

  lemma TextIsNotEmpty(v: Json)
    requires v.Obj?
    ensures Canonical(v) != ""
  {
    assert Canonical(v)[0] == '{';
  }

  /** No object has the texts of two objects in a row as its text. */
  lemma TwoTextsAreNoObject(a: Json, b: Json, c: Json)
    requires a.Obj? && b.Obj? && c.Obj?
    ensures Canonical(a) + Canonical(b) != Canonical(c)
  {
    hide Canonical;
    TextIsNotEmpty(b);
    if Canonical(a) + Canonical(b) == Canonical(c) + "" {
      ObjectTextsPrefixFree(a, c, Canonical(b), "");
    }
  }

  /** Appending both rows to a verifying pair keeps it verifying exactly when the audit file has
      no unreadable line, its last row is not torn off before its line break, and the ledger row has
      no line break.  (A verifying pair can have an unreadable audit line: an empty ledger accepts
      any audit file that reads as empty.) */
  lemma AppendVerifiesIff(h: string -> string, ledger: seq<Line>, audit: seq<Line>, torn: bool, entry: Json)
    requires Verifies(h, ledger, audit) && entry.Obj? && Printable(entry)
    ensures Verifies(h, ledger + WrittenLines(entry), AuditWritten(audit, torn, AuditEntry(h, entry, audit))) <==>
            Readable(audit) && !Continues(audit, torn) && NoLineBreak(entry)
    ensures Rows(ledger + WrittenLines(entry)) == if NoLineBreak(entry) then Some(Rows(ledger).value + [entry]) else None
  {
    hide Canonical, Printable, NoLineBreak, WrittenLines, Rows, Readable, AuditRows, Linked, Verifies;
    hide AuditWritten, Continues, PreviousHash, LinkHash, EntryHash, HashOf;
    var row := AuditEntry(h, entry, audit);
    RowsAppendWritten(ledger, entry);
    AppendedLinks(h, ledger, audit, entry);
    WrittenUnlessTorn(audit, torn, row);
    AuditRowsAppend(audit, row);
    EmptyLinks(h, ledger + WrittenLines(entry), AuditWritten(audit, torn, row));
    LinksVerify(h, ledger + WrittenLines(entry), AuditWritten(audit, torn, row));
  }

  lemma LinksVerify(h: string -> string, ledger: seq<Line>, audit: seq<Line>)
    ensures Verifies(h, ledger, audit) <==> Rows(ledger).Some? && Linked(h, Rows(ledger).value, AuditRows(audit))
  {
  }

  lemma WrittenUnlessTorn(audit: seq<Line>, torn: bool, row: Json)
    requires row.Obj?
    ensures if Continues(audit, torn) then AuditRows(AuditWritten(audit, torn, row)) == []
            else AuditWritten(audit, torn, row) == audit + [Value(row)]
  {
    if Continues(audit, torn) {
      AuditRowsAppend(audit[..|audit| - 1], row);
    }
  }

  /** What is added is linked to what is there. */
  lemma AppendedLinks(h: string -> string, ledger: seq<Line>, audit: seq<Line>, entry: Json)
    requires Verifies(h, ledger, audit) && entry.Obj? && Printable(entry)
    ensures Rows(ledger).Some?
    ensures Linked(h, Rows(ledger).value + [entry], AuditRows(audit) + [AuditEntry(h, entry, audit)])
  {
    LastHashIsHashOf(h, ledger, audit);
    hide Canonical, Rows, AuditRows, HashOf;
    LinkedAppend(h, Rows(ledger).value, AuditRows(audit), entry, AuditEntry(h, entry, audit));
  }

  lemma EmptyLinks(h: string -> string, ledger: seq<Line>, audit: seq<Line>)
    ensures AuditRows(audit) == [] && Rows(ledger).Some? && Rows(ledger).value != [] ==> !Verifies(h, ledger, audit)
  {
  }

  /** The first edge case exists: an unreadable audit file beside an empty ledger. */
  lemma UnreadableAuditVerifiesWhenEmpty(h: string -> string, entry: Json)
    requires entry.Obj? && Printable(entry)
    ensures Verifies(h, [], [Garbage])
    ensures !Verifies(h, WrittenLines(entry), [Garbage, Value(AuditEntry(h, entry, [Garbage]))])
  {
    assert Garbage in [Garbage];
    assert [] + WrittenLines(entry) == WrittenLines(entry);
    assert [Garbage] + [Value(AuditEntry(h, entry, [Garbage]))] == [Garbage, Value(AuditEntry(h, entry, [Garbage]))];
    assert !Readable([Garbage]);
    AppendVerifiesIff(h, [], [Garbage], false, entry);
  }

  /** So does the second: one line separator in a string is enough. */
  lemma SeparatorBreaksRow(fields: map<string, Json>, key: string, a: string, separator: char, b: string)
    requires separator in {'\U{0085}', '\U{2028}', '\U{2029}'}
    requires key in fields && fields[key] == Str(a + [separator] + b)
    ensures !NoLineBreak(Obj(fields)) && Rows(WrittenLines(Obj(fields))).None?
  {
    var s := a + [separator] + b;
    assert s[|a|] in s && Separator(s[|a|]);
    assert !NoSeparator(s);
    WrittenRow(Obj(fields));
    GarbageSpoils(WrittenLines(Obj(fields)), 0);
  }

  /** So does the third: an audit row torn off just before its line break still verifies, and the
      append after it breaks the chain. */
  lemma TornBreakBlocksNext(h: string -> string, ledger: seq<Line>, audit: seq<Line>, first: Json, second: Json)
    requires Verifies(h, ledger, audit) && Readable(audit)
    requires first.Obj? && Printable(first) && NoLineBreak(first) && second.Obj? && Printable(second)
    ensures var ledger1, audit1 := ledger + WrittenLines(first), AuditWritten(audit, false, AuditEntry(h, first, audit));
            && Verifies(h, ledger1, audit1) && Rows(ledger1) == Some(Rows(ledger).value + [first])
            && !Verifies(h, ledger1 + WrittenLines(second), AuditWritten(audit1, true, AuditEntry(h, second, audit1)))
  {
    AppendVerifiesIff(h, ledger, audit, false, first);
    AppendVerifiesIff(h, ledger + WrittenLines(first), AuditWritten(audit, false, AuditEntry(h, first, audit)), true, second);
  }

  /** Any partial append leaves a pair that does not verify. */
  lemma PartialAppendFails(h: string -> string, ledger: seq<Line>, audit: seq<Line>, entry: Json)
    requires Verifies(h, ledger, audit)
    ensures !Verifies(h, ledger + [Garbage], audit)
    ensures !Verifies(h, ledger + WrittenLines(entry), audit)
    ensures !Verifies(h, ledger + WrittenLines(entry), audit + [Garbage])
  {
    RowsAppend(ledger, Garbage);
    RowsAppendWritten(ledger, entry);
    AuditRowsAppend(audit, Obj(map[]));
  }
}
