/** The signed envelope: which payloads may be sent, what is signed, and when it verifies
    before the nonce is looked at. */
module Signing {
  import opened Text
  import opened Json
  import opened Results

  const ALLOWED_OPS := {"message", "task", "file_update", "broadcast", "join"}
  const FORBIDDEN_KEY_TERMS :=
    {"api_key", "apikey", "secret", "password", "private_key", "env", "hostname", "email", "internal_ip"}

  predicate Ascii(s: string) {
    forall c | c in s :: c < '\U{0080}'
  }

  /** A hexadecimal digest. */
  type Digest = s: string | Ascii(s) witness ""

  /** What the model does not define: the keyed hash, the recognisers of e-mail addresses,
      paths and private IP addresses, and the reading of times and numbers. */
  datatype Platform = Platform(
    mac: (string, string) -> Digest,
    badString: string -> bool,
    parseTime: string -> Option<real>,
    numberValue: string -> real)

  // ---- payload screening ----

  predicate SensitiveKey(key: string) {
    var text := ReplaceChar(Lower(key), '-', '_');
    || text in FORBIDDEN_KEY_TERMS
    || Contains(text, "api_key") || Contains(text, "private_key")
    || Contains(text, "password") || Contains(text, "secret")
  }

  /** The key, in lower case and with `-` as `_`, is one of nine words or holds one of four. */
  ghost predicate ForbiddenKey(key: string) {
    var text := ReplaceChar(Lower(key), '-', '_');
    || text in ["api_key", "apikey", "secret", "password", "private_key", "env", "hostname", "email", "internal_ip"]
    || HoldsWord(text, "api_key") || HoldsWord(text, "private_key") || HoldsWord(text, "password") || HoldsWord(text, "secret")
  }

  lemma SensitiveIffForbidden(key: string)
    ensures SensitiveKey(key) <==> ForbiddenKey(key)
  {
    hide Contains, HoldsWord, ReplaceChar, Lower;
    var text := ReplaceChar(Lower(key), '-', '_');
    ContainsIff(text, "api_key");
    ContainsIff(text, "private_key");
    ContainsIff(text, "password");
    ContainsIff(text, "secret");
  }

  /** `validate_payload` returns without raising. */
  predicate PayloadAllowed(p: Platform, v: Json) {
    match v
    case Obj(fields) => forall k | k in fields :: !SensitiveKey(k) && PayloadAllowed(p, fields[k])
    case List(items) => forall x | x in items :: PayloadAllowed(p, x)
    case Str(s) => !p.badString(s)
    case _ => true
  }

  datatype PathStep = Field(key: string) | Item(index: nat)

  /** The value reached from `v` by following `path`. */
  function At(v: Json, path: seq<PathStep>): Option<Json> {
    if path == [] then Some(v)
    else
      match path[0]
      case Field(key) => if v.Obj? && key in v.fields then At(v.fields[key], path[1..]) else None
      case Item(index) => if v.List? && index < |v.items| then At(v.items[index], path[1..]) else None
  }

  /** The value at `path` is itself a refused string, or an object with a refused key. */
  ghost predicate RefusedAt(p: Platform, v: Json, path: seq<PathStep>) {
    match At(v, path)
    case Some(Str(s)) => p.badString(s)
    case Some(Obj(fields)) => exists k | k in fields :: ForbiddenKey(k)
    case _ => false
  }

  lemma {:induction false} RefusedSomewhere(p: Platform, v: Json) returns (path: seq<PathStep>)
    requires !PayloadAllowed(p, v)
    ensures RefusedAt(p, v, path)
  {
    path := [];
    match v {
      case Obj(fields) =>
        if k :| k in fields && SensitiveKey(k) {
          SensitiveIffForbidden(k);
          assert At(v, []) == Some(v);
        } else {
          var k :| k in fields && !PayloadAllowed(p, fields[k]);
          var rest := RefusedSomewhere(p, fields[k]);
          path := [Field(k)] + rest;
          assert path[1..] == rest;
        }
      case List(items) =>
        var i :| 0 <= i < |items| && !PayloadAllowed(p, items[i]);
        var rest := RefusedSomewhere(p, items[i]);
        path := [Item(i)] + rest;
        assert path[1..] == rest;
      case _ =>
    }
  }

  lemma {:induction false} AllowedEverywhere(p: Platform, v: Json, path: seq<PathStep>)
    requires PayloadAllowed(p, v)
    ensures !RefusedAt(p, v, path)
    decreases |path|
  {
    hide SensitiveKey, ForbiddenKey;
    if path == [] {
      forall k {
        SensitiveIffForbidden(k);
      }
    } else {
      match path[0] {
        case Field(key) =>
          if v.Obj? && key in v.fields {
            AllowedEverywhere(p, v.fields[key], path[1..]);
          }
        case Item(index) =>
          if v.List? && index < |v.items| {
            assert v.items[index] in v.items;
            AllowedEverywhere(p, v.items[index], path[1..]);
          }
      }
    }
  }

  /** The check refuses a tree exactly when some key or string at some depth is refused. */
  lemma PayloadRefusedIff(p: Platform, v: Json)
    ensures !PayloadAllowed(p, v) <==> exists path :: RefusedAt(p, v, path)
  {
    if PayloadAllowed(p, v) {
      forall path ensures !RefusedAt(p, v, path) {
        AllowedEverywhere(p, v, path);
      }
    } else {
      var path := RefusedSomewhere(p, v);
    }
  }

  // ---- what is signed ----

  function SigningMaterial(nodeId: string, op: string, payload: Json, nonce: string, ts: Json): string {
    nodeId + "|" + (op + "|" + (Canonical(payload) + ("|" + (nonce + "|" + PyText(ts)))))
  }

  /** The signed text determines every signed part: the payload and the nonce may hold `|`. */
  lemma SigningMaterialInjective(
    node1: string, op1: string, payload1: Json, nonce1: string, ts1: Json,
    node2: string, op2: string, payload2: Json, nonce2: string, ts2: Json)
    requires payload1.Obj? && payload2.Obj?
    requires '|' !in node1 && '|' !in op1 && '|' !in PyText(ts1)
    requires '|' !in node2 && '|' !in op2 && '|' !in PyText(ts2)
    requires SigningMaterial(node1, op1, payload1, nonce1, ts1) == SigningMaterial(node2, op2, payload2, nonce2, ts2)
    ensures node1 == node2 && op1 == op2 && payload1 == payload2 && nonce1 == nonce2
    ensures PyText(ts1) == PyText(ts2)
  {
    var tail1, tail2 := nonce1 + "|" + PyText(ts1), nonce2 + "|" + PyText(ts2);
    var body1, body2 := Canonical(payload1) + ("|" + tail1), Canonical(payload2) + ("|" + tail2);
    FirstSeparator(node1, node2, op1 + "|" + body1, op2 + "|" + body2, '|');
    FirstSeparator(op1, op2, body1, body2, '|');
    ObjectTextsPrefixFree(payload1, payload2, "|" + tail1, "|" + tail2);
    DropPrefix("|", tail1, tail2);
    LastSeparator(nonce1, nonce2, PyText(ts1), PyText(ts2), '|');
  }

  // ---- when two envelopes sign the same text ----

  /** The signed parts. */
  datatype Parts = Parts(node: string, op: string, payload: Json, nonce: string, ts: Json)

  function SignedText(p: Parts): string {
    SigningMaterial(p.node, p.op, p.payload, p.nonce, p.ts)
  }

  predicate Signable(p: Parts) {
    p.payload.Obj? && p.op in ALLOWED_OPS && '|' !in PyText(p.ts)
  }

  /** What is signed between operation and time. */
  function Body(p: Parts): string {
    Canonical(p.payload) + "|" + p.nonce
  }

  /** The node id of `a` continues that of `b` with the operation of `b` and `y`, and `y` and the
      rest of `a` are what `b` signs there. */
  predicate Continues(a: Parts, b: Parts, y: string) {
    a.node == b.node + "|" + (b.op + "|" + y) && Body(b) == y + "|" + (a.op + "|" + Body(a))
  }

  lemma MoreAfter(a: string, b: string, rest: string)
    ensures (a + "|" + b) + "|" + rest == a + "|" + (b + "|" + rest)
    ensures (a + ("|" + b)) + "|" + rest == a + ("|" + (b + "|" + rest))
  {
  }

  lemma TextParts(p: Parts)
    ensures SignedText(p) == (p.node + "|" + (p.op + "|" + Body(p))) + "|" + PyText(p.ts)
  {
    hide Canonical, PyText;
    var c, t := Canonical(p.payload), PyText(p.ts);
    assert Body(p) == c + ("|" + p.nonce);
    MoreAfter(c, p.nonce, t);
    MoreAfter(p.op, Body(p), t);
    MoreAfter(p.node, p.op + "|" + Body(p), t);
  }

  lemma AllowedOp(op: string)
    requires op in ALLOWED_OPS
    ensures op != "" && op[0] != '{' && '|' !in op
  {
  }

  lemma BodyStart(p: Parts)
    requires p.payload.Obj?
    ensures Body(p) != "" && Body(p)[0] == '{'
  {
    WriteStart(p.payload, "");
  }

  lemma SameNodeSameParts(a: Parts, b: Parts)
    requires Signable(a) && Signable(b) && a.op + "|" + Body(a) == b.op + "|" + Body(b)
    ensures a.op == b.op && a.payload == b.payload && a.nonce == b.nonce
  {
    hide Canonical, PyText;
    AllowedOp(a.op);
    AllowedOp(b.op);
    FirstSeparator(a.op, b.op, Body(a), Body(b), '|');
    var tailA, tailB := "|" + a.nonce, "|" + b.nonce;
    assert Body(a) == Canonical(a.payload) + tailA && Body(b) == Canonical(b.payload) + tailB;
    ObjectTextsPrefixFree(a.payload, b.payload, tailA, tailB);
    DropPrefix("|", a.nonce, b.nonce);
  }

  /** Where the first separator of `z` is, if it has one. */
  lemma {:induction false} FirstCut(z: string) returns (n: nat)
    requires '|' in z
    ensures n < |z| && z[n] == '|' && '|' !in z[..n]
  {
    if z[0] == '|' {
      n := 0;
    } else {
      assert z == [z[0]] + z[1..];
      n := FirstCut(z[1..]);
      n := n + 1;
      assert z[..n] == [z[0]] + z[1..][..n - 1];
    }
  }

  lemma LongerNodeContinues(a: Parts, b: Parts)
    requires Signable(a) && Signable(b) && |a.node| > |b.node|
    requires a.node + "|" + (a.op + "|" + Body(a)) == b.node + "|" + (b.op + "|" + Body(b))
    ensures exists y :: Continues(a, b, y)
  {
    hide Canonical, PyText;
    var n := |b.node|;
    var whole := b.node + "|" + (b.op + "|" + Body(b));
    assert whole == a.node + "|" + (a.op + "|" + Body(a));
    assert whole[..n] == b.node && whole[n] == '|' && whole[..|a.node|] == a.node;
    var z, restA := a.node[n + 1..], a.op + "|" + Body(a);
    assert a.node == b.node + "|" + z;
    assert whole == b.node + "|" + (z + "|" + restA);
    DropPrefix(b.node + "|", z + "|" + restA, b.op + "|" + Body(b));
    AfterOperation(a, b, z);
  }

  lemma AfterOperation(a: Parts, b: Parts, z: string)
    requires Signable(a) && Signable(b) && a.node == b.node + "|" + z
    requires z + "|" + (a.op + "|" + Body(a)) == b.op + "|" + Body(b)
    ensures exists y :: Continues(a, b, y)
  {
    hide Canonical, PyText;
    var restA := a.op + "|" + Body(a);
    AllowedOp(a.op);
    AllowedOp(b.op);
    BodyStart(b);
    assert restA[0] == a.op[0];
    if '|' !in z {
      FirstSeparator(z, b.op, restA, Body(b), '|');
      assert false;
    }
    var m := FirstCut(z);
    var y := z[m + 1..];
    assert z == z[..m] + "|" + y;
    assert z + "|" + restA == z[..m] + "|" + (y + "|" + restA);
    FirstSeparator(z[..m], b.op, y + "|" + restA, Body(b), '|');
    assert Continues(a, b, y);
  }

  lemma ContinuingCollides(a: Parts, b: Parts, y: string)
    requires Continues(a, b, y)
    ensures a.node + "|" + (a.op + "|" + Body(a)) == b.node + "|" + (b.op + "|" + Body(b))
  {
    hide Canonical;
    MoreAfter(b.op, y, a.op + "|" + Body(a));
    MoreAfter(b.node, b.op + "|" + y, a.op + "|" + Body(a));
  }

  /** Two envelopes with allowed operations sign the same text exactly when they have the same parts,
      or when one node id continues the other so that what it continues with is what the other
      signs there. */
  lemma SameTextIff(a: Parts, b: Parts)
    requires Signable(a) && Signable(b)
    ensures SignedText(a) == SignedText(b) <==>
            && PyText(a.ts) == PyText(b.ts)
            && (|| (a.node == b.node && a.op == b.op && a.payload == b.payload && a.nonce == b.nonce)
                || (exists y :: Continues(a, b, y))
                || (exists y :: Continues(b, a, y)))
  {
    hide Canonical, PyText;
    TextParts(a);
    TextParts(b);
    var headA, headB := a.node + "|" + (a.op + "|" + Body(a)), b.node + "|" + (b.op + "|" + Body(b));
    if SignedText(a) == SignedText(b) {
      LastSeparator(headA, headB, PyText(a.ts), PyText(b.ts), '|');
      if |a.node| > |b.node| {
        LongerNodeContinues(a, b);
      } else if |b.node| > |a.node| {
        LongerNodeContinues(b, a);
      } else {
        assert headA[..|a.node|] == a.node && headB[..|b.node|] == b.node;
        DropPrefix(a.node + "|", a.op + "|" + Body(a), b.op + "|" + Body(b));
        SameNodeSameParts(a, b);
      }
    } else {
      forall y | Continues(a, b, y) ensures PyText(a.ts) != PyText(b.ts) {
        ContinuingCollides(a, b, y);
      }
      forall y | Continues(b, a, y) ensures PyText(a.ts) != PyText(b.ts) {
        ContinuingCollides(b, a, y);
      }
    }
  }

  /** Such a continuation is the operation and then the start of an object text. */
  lemma ContinuationIsObjectText(a: Parts, b: Parts, y: string)
    requires Signable(a) && Signable(b) && Continues(a, b, y)
    ensures y != "" && y[0] == '{' && b.node + "|" + b.op + "|{" <= a.node
  {
    hide Canonical, PyText;
    BodyStart(b);
    assert (y + "|" + (a.op + "|" + Body(a)))[0] == '{';
    assert a.node == b.node + "|" + b.op + "|{" + y[1..];
  }

  /** The continuation need not hold the whole object text: a payload string with the separator in it
      can be cut there. */
  lemma CutPayloadCollides(a: Parts, b: Parts, y: string, z: string)
    requires Canonical(b.payload) == y + "|" + (a.op + "|" + (Canonical(a.payload) + "|" + z))
    requires a.node == b.node + "|" + (b.op + "|" + y) && a.nonce == z + "|" + b.nonce && a.ts == b.ts
    ensures |y| < |Canonical(b.payload)| && Continues(a, b, y) && SignedText(a) == SignedText(b)
  {
    hide Canonical, PyText;
    MoreAfter(Canonical(a.payload), z, b.nonce);
    MoreAfter(a.op, Canonical(a.payload) + "|" + z, b.nonce);
    MoreAfter(y, a.op + "|" + (Canonical(a.payload) + "|" + z), b.nonce);
    assert Body(a) == Canonical(a.payload) + "|" + (z + "|" + b.nonce);
    ContinuingCollides(a, b, y);
    TextParts(a);
    TextParts(b);
  }

  /** The signed body can be read as the rest of one envelope followed by another: after some text
      comes an allowed operation, an object text and a nonce. */
  ghost predicate HoldsEnvelope(b: Parts) {
    exists y, op, payload: Json, nonce :: HoldsAt(b, y, op, payload, nonce)
  }

  predicate HoldsAt(b: Parts, y: string, op: string, payload: Json, nonce: string) {
    op in ALLOWED_OPS && payload.Obj? && Body(b) == y + "|" + (op + "|" + (Canonical(payload) + "|" + nonce))
  }

  /** `a` has a longer node id and signs the same text. */
  predicate LongerTwin(a: Parts, b: Parts) {
    Signable(a) && |a.node| > |b.node| && SignedText(a) == SignedText(b)
  }

  /** Some longer node id signs the same text exactly when the signed body holds another envelope. */
  lemma LongerTwinIff(b: Parts)
    requires Signable(b)
    ensures (exists a :: LongerTwin(a, b)) <==> HoldsEnvelope(b)
  {
    hide Canonical, PyText, SignedText;
    if a :| LongerTwin(a, b) {
      TextParts(a);
      TextParts(b);
      LastSeparator(a.node + "|" + (a.op + "|" + Body(a)), b.node + "|" + (b.op + "|" + Body(b)), PyText(a.ts), PyText(b.ts), '|');
      LongerNodeContinues(a, b);
      var y :| Continues(a, b, y);
      assert HoldsAt(b, y, a.op, a.payload, a.nonce);
    }
    if HoldsEnvelope(b) {
      var y, op, payload: Json, nonce :| HoldsAt(b, y, op, payload, nonce);
      TwinOf(b, y, op, payload, nonce);
    }
  }

  lemma TwinOf(b: Parts, y: string, op: string, payload: Json, nonce: string)
    requires Signable(b) && HoldsAt(b, y, op, payload, nonce)
    ensures LongerTwin(Parts(b.node + "|" + (b.op + "|" + y), op, payload, nonce, b.ts), b)
  {
    hide Canonical, PyText;
    var a := Parts(b.node + "|" + (b.op + "|" + y), op, payload, nonce, b.ts);
    assert Continues(a, b, y);
    ContinuingCollides(a, b, y);
    TextParts(a);
    TextParts(b);
  }

  // ---- the envelope ----

  function TimestampSeconds(p: Platform, ts: Json): Option<real> {
    match ts
    case Num(t) => Some(p.numberValue(t))
    case Str(s) => p.parseTime(s)
    case _ => None
  }

  function Envelope(nodeId: string, op: string, payload: Json, nonce: string, ts: Json, sig: string): Json {
    Obj(map["node_id" := Str(nodeId), "op" := Str(op), "payload" := payload,
            "nonce" := Str(nonce), "ts" := ts, "sig" := Str(sig)])
  }

  datatype SignError = OperationNotAllowed | PayloadNotObject | PayloadDenied | NotPrintable

  /** `sign`; `freshNonce` and `clock` are what the system supplies when no nonce or time is given. */
  function Sign(p: Platform, key: string, nodeId: string, op: string, payload: Json,
                nonce: Option<string>, ts: Option<Json>, freshNonce: string, clock: Json): Result<Json, SignError>
  {
    if op !in ALLOWED_OPS then Err(OperationNotAllowed)
    else if !payload.Obj? then Err(PayloadNotObject)
    else if !PayloadAllowed(p, payload) then Err(PayloadDenied)
    else if !Printable(payload) then Err(NotPrintable)
    else
      var n := if nonce.Some? && nonce.value != "" then nonce.value else freshNonce;
      var t := if ts.Some? then ts.value else clock;
      Ok(Envelope(nodeId, op, payload, n, t, p.mac(key, SigningMaterial(nodeId, op, payload, n, t))))
  }

  datatype Reason =
    | InvalidMessage | InvalidNode | OpRefused | InvalidFields
    | StaleTimestamp | InvalidSignature | ReplayedNonce

  /** `Raised` is the `TypeError` of asking whether a list or an object is an allowed operation, or
      of comparing the digest with a signature that is not ASCII. */
  datatype Screened = Refused(reason: Reason) | Raised | Fresh(nodeId: string, nonce: string, ts: real)

  function Abs(x: real): real {
    if x < 0.0 then -x else x
  }

  predicate ExpectedNode(nodeId: string, expected: Option<string>) {
    expected.None? || expected.value == "" || expected.value == nodeId
  }

  /** All checks of `verify` that come before the nonce store, in the order of the code. */
  function Screen(p: Platform, key: string, window: nat, message: Json, expected: Option<string>, now: real): Screened {
    if !message.Obj? then Refused(InvalidMessage)
    else
      var nodeId, op := Get(message.fields, "node_id"), Get(message.fields, "op");
      var payload, nonce := Get(message.fields, "payload"), Get(message.fields, "nonce");
      var sig, rawTs := Get(message.fields, "sig"), Get(message.fields, "ts");
      if !nodeId.Str? || nodeId.s == "" || !ExpectedNode(nodeId.s, expected) then Refused(InvalidNode)
      else if op.List? || op.Obj? then Raised
      else if !op.Str? || op.s !in ALLOWED_OPS then Refused(OpRefused)
      else if !payload.Obj? || !nonce.Str? || nonce.s == "" || !sig.Str? then Refused(InvalidFields)
      else
        var ts := TimestampSeconds(p, rawTs);
        if ts.None? then Refused(InvalidMessage)
        else if Abs(now - ts.value) > window as real then Refused(StaleTimestamp)
        else if !PayloadAllowed(p, payload) || !Printable(payload) then Refused(InvalidMessage)
        else if !Ascii(sig.s) then Raised
        else if p.mac(key, SigningMaterial(nodeId.s, op.s, payload, nonce.s, rawTs)) != sig.s then Refused(InvalidSignature)
        else Fresh(nodeId.s, nonce.s, ts.value)
  }

  /** The message names a node, the expected one if any. */
  ghost predicate NamesNode(message: Json, expected: Option<string>) {
    && message.Obj? && Get(message.fields, "node_id").Str? && Get(message.fields, "node_id").s != ""
    && (expected.Some? && expected.value != "" ==> Get(message.fields, "node_id") == Str(expected.value))
  }

  /** Moreover its operation is allowed, its payload is an object, and nonce and signature are texts, the
      nonce not empty. */
  ghost predicate WellFormed(message: Json, expected: Option<string>) {
    && NamesNode(message, expected)
    && Get(message.fields, "op") in [Str("message"), Str("task"), Str("file_update"), Str("broadcast"), Str("join")]
    && Get(message.fields, "payload").Obj? && Get(message.fields, "sig").Str?
    && Get(message.fields, "nonce").Str? && Get(message.fields, "nonce").s != ""
  }

  /** The time is a number or a readable text, and at most the window away. */
  ghost predicate TimelyAt(p: Platform, message: Json, window: nat, now: real, ts: real)
    requires message.Obj?
  {
    && (match Get(message.fields, "ts")
        case Num(t) => ts == p.numberValue(t)
        case Str(s) => p.parseTime(s) == Some(ts)
        case _ => false)
    && now - ts <= window as real && ts - now <= window as real
  }

  /** Nothing in the payload is refused or cannot be printed. */
  ghost predicate PayloadClean(p: Platform, payload: Json) {
    Printable(payload) && forall path :: !RefusedAt(p, payload, path)
  }

  /** The message is well formed and timely, nothing in its payload is refused, and its signature is the
      digest of exactly its parts under the key. */
  ghost predicate Genuine(p: Platform, key: string, window: nat, message: Json, expected: Option<string>, now: real,
                          nodeId: string, nonce: string, ts: real)
  {
    && WellFormed(message, expected) && TimelyAt(p, message, window, now, ts)
    && PayloadClean(p, Get(message.fields, "payload"))
    && Get(message.fields, "node_id") == Str(nodeId) && Get(message.fields, "nonce") == Str(nonce)
    && Get(message.fields, "sig") ==
       Str(p.mac(key, SigningMaterial(nodeId, Get(message.fields, "op").s, Get(message.fields, "payload"), nonce, Get(message.fields, "ts"))))
  }

  /** A message passes exactly when it is genuine. */
  lemma FreshIff(p: Platform, key: string, window: nat, message: Json, expected: Option<string>, now: real,
                 nodeId: string, nonce: string, ts: real)
    ensures Screen(p, key, window, message, expected, now) == Fresh(nodeId, nonce, ts) <==>
            Genuine(p, key, window, message, expected, now, nodeId, nonce, ts)
  {
    hide PayloadAllowed, Printable, RefusedAt, SigningMaterial;
    if message.Obj? {
      PayloadRefusedIff(p, Get(message.fields, "payload"));
    }
  }

  /** Checking a message raises exactly when its operation is a list or an object, or when all but the
      signature is in order and the signature is not ASCII. */
  lemma RaisedIff(p: Platform, key: string, window: nat, message: Json, expected: Option<string>, now: real)
    ensures Screen(p, key, window, message, expected, now).Raised? <==>
            || (NamesNode(message, expected) && (Get(message.fields, "op").List? || Get(message.fields, "op").Obj?))
            || (WellFormed(message, expected) && (exists ts :: TimelyAt(p, message, window, now, ts))
                && PayloadClean(p, Get(message.fields, "payload")) && exists c | c in Get(message.fields, "sig").s :: c as int >= 128)
  {
    hide PayloadAllowed, Printable, RefusedAt, SigningMaterial;
    if message.Obj? {
      PayloadRefusedIff(p, Get(message.fields, "payload"));
      var seconds := TimestampSeconds(p, Get(message.fields, "ts"));
      if seconds.Some? {
        assert TimelyAt(p, message, window, now, seconds.value) <==> Abs(now - seconds.value) <= window as real;
      }
    }
  }

  /** `sign` signs exactly the allowed operations with clean objects, and emits the parts it was given with
      the digest of them; nonce and time are supplied only where none is given. */
  lemma SignIff(p: Platform, key: string, nodeId: string, op: string, payload: Json,
                    nonce: Option<string>, ts: Option<Json>, freshNonce: string, clock: Json)
    ensures var signed := Sign(p, key, nodeId, op, payload, nonce, ts, freshNonce, clock);
            && (signed.Ok? <==> op in ["message", "task", "file_update", "broadcast", "join"] && payload.Obj? && PayloadClean(p, payload))
            && (signed.Ok? ==>
                  && signed.value.Obj? && var f := signed.value.fields;
                  && f.Keys == {"node_id", "op", "payload", "nonce", "ts", "sig"}
                  && f["node_id"] == Str(nodeId) && f["op"] == Str(op) && f["payload"] == payload
                  && f["nonce"] == Str(if nonce.Some? && nonce.value != "" then nonce.value else freshNonce)
                  && f["ts"] == (if ts.Some? then ts.value else clock)
                  && f["sig"] == Str(p.mac(key, SigningMaterial(nodeId, op, payload, f["nonce"].s, f["ts"]))))
  {
    hide PayloadAllowed, Printable, RefusedAt, SigningMaterial;
    PayloadRefusedIff(p, payload);
  }

  /** The text that is signed, at one example. */
  lemma SignedExample()
    ensures SigningMaterial("node-1", "task", Obj(map[]), "n", Num("5")) == "node-1|task|{}|n|5"
  {
    assert Canonical(Obj(map[])) == "{}";
  }

  /** What `sign` emits passes every check but those on time and nonce. */
  lemma SignedPassesScreen(p: Platform, key: string, nodeId: string, op: string, payload: Json,
                           nonce: Option<string>, ts: Option<Json>, freshNonce: string, clock: Json,
                           window: nat, expected: Option<string>, now: real)
    requires nodeId != "" && freshNonce != ""
    requires Sign(p, key, nodeId, op, payload, nonce, ts, freshNonce, clock).Ok?
    ensures var message := Sign(p, key, nodeId, op, payload, nonce, ts, freshNonce, clock).value;
            var seconds := TimestampSeconds(p, message.fields["ts"]);
            && Screen(p, key, window, message, expected, now).Fresh? <==>
               (ExpectedNode(nodeId, expected) && seconds.Some? && Abs(now - seconds.value) <= window as real)
  {
  }

  /** A message that passes carries a signature of exactly the parts it names: with an injective
      keyed hash, a signature made for other parts never passes. */
  lemma ForeignSignatureFails(p: Platform, key: string, window: nat, message: Json, expected: Option<string>, now: real,
                              nodeId: string, op: string, payload: Json, nonce: string, ts: Json)
    requires forall k1, m1, k2, m2 :: p.mac(k1, m1) == p.mac(k2, m2) ==> k1 == k2 && m1 == m2
    requires message.Obj? && Screen(p, key, window, message, expected, now).Fresh?
    requires payload.Obj? && '|' !in nodeId && '|' !in op && '|' !in PyText(ts)
    requires '|' !in message.fields["node_id"].s && '|' !in PyText(message.fields["ts"])
    requires message.fields["sig"] == Str(p.mac(key, SigningMaterial(nodeId, op, payload, nonce, ts)))
    ensures && message.fields["node_id"] == Str(nodeId) && message.fields["op"] == Str(op)
            && message.fields["payload"] == payload && message.fields["nonce"] == Str(nonce)
            && PyText(message.fields["ts"]) == PyText(ts)
  {
    var f := message.fields;
    assert f["op"].s in ALLOWED_OPS && '|' !in f["op"].s;
    SigningMaterialInjective(f["node_id"].s, f["op"].s, f["payload"], f["nonce"].s, f["ts"], nodeId, op, payload, nonce, ts);
  }
}
