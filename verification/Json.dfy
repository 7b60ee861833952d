/** JSON values as Python holds them and the canonical text `json.dumps` gives them with
    sorted keys, compact separators and non-ASCII characters left alone
    (RFC 8259, sections 4 to 7). */
module Json {
  import opened Text

  predicate NumberChar(c: char) {
    '0' <= c <= '9' || c == '+' || c == '-' || c == '.' || c == 'e' || c == 'E'
  }

  predicate IsNumberText(t: string) {
    t != [] && (t[0] == '-' || '0' <= t[0] <= '9') && forall c | c in t :: NumberChar(c)
  }

  /** A number is held as the text Python prints for it. */
  type NumberText = t: string | IsNumberText(t) witness "0"

  /** `NonFinite` stands for the NaN and infinities that Python reads and writes outside RFC 8259. */
  datatype Json =
    | Null
    | Bool(b: bool)
    | Num(text: NumberText)
    | NonFinite
    | Str(s: string)
    | List(items: seq<Json>)
    | Obj(fields: map<string, Json>)

  /** What `allow_nan=False` demands of a value. */
  predicate Printable(v: Json) {
    match v
    case NonFinite => false
    case List(items) => forall x | x in items :: Printable(x)
    case Obj(fields) => forall k | k in fields :: Printable(fields[k])
    case _ => true
  }

  function HexDigit(n: int): char
    requires 0 <= n < 16
  {
    if n < 10 then ('0' as int + n) as char else ('a' as int + n - 10) as char
  }

  function EscapeChar(c: char): string {
    if c == '\"' then "\\\""
    else if c == '\\' then "\\\\"
    else if c == '\n' then "\\n"
    else if c == '\r' then "\\r"
    else if c == '\t' then "\\t"
    else if c == '\U{0008}' then "\\b"
    else if c == '\U{000C}' then "\\f"
    else if c < ' ' then "\\u00" + [HexDigit(c as int / 16), HexDigit(c as int % 16)]
    else [c]
  }

  // Texts are built from the back: each writer takes the text that follows.

  /** The string `s` in quotes, without the opening one, then `rest`. */
  function WriteQuoted(s: string, rest: string): string {
    if s == [] then "\"" + rest else EscapeChar(s[0]) + WriteQuoted(s[1..], rest)
  }

  /** The canonical text of `v`, then `rest`. */
  function Write(v: Json, rest: string): string
    decreases v, 1, 0
  {
    match v
    case Null => "null" + rest
    case Bool(b) => (if b then "true" else "false") + rest
    case Num(t) => t + rest
    case NonFinite => "NaN" + rest
    case Str(s) => "\"" + WriteQuoted(s, rest)
    case List(items) => "[" + WriteItems(items, "", rest)
    case Obj(fields) => "{" + WriteMembers(v, fields.Keys, "", rest)
  }

  /** The items, the first of them after `sep`, the closing bracket, then `rest`. */
  function WriteItems(items: seq<Json>, sep: string, rest: string): string
    decreases items, 0, 0
  {
    if items == [] then "]" + rest
    else sep + Write(items[0], WriteItems(items[1..], ",", rest))
  }

  /** The members with keys `ks` in sorted order, the first after `sep`, the closing brace,
      then `rest`. */
  function WriteMembers(v: Json, ks: set<string>, sep: string, rest: string): string
    requires v.Obj? && ks <= v.fields.Keys
    decreases v, 0, |ks|
  {
    if ks == {} then "}" + rest
    else
      var k := Least(ks);
      sep + "\"" + WriteQuoted(k, ":" + Write(v.fields[k], WriteMembers(v, ks - {k}, ",", rest)))
  }

  function Canonical(v: Json): string {
    Write(v, "")
  }

  // ---- what follows a text can be written later ----

  lemma {:induction false} WriteQuotedAppend(s: string, rest: string, more: string)
    ensures WriteQuoted(s, rest) + more == WriteQuoted(s, rest + more)
  {
    if s != [] {
      WriteQuotedAppend(s[1..], rest, more);
      assert WriteQuoted(s, rest) + more == EscapeChar(s[0]) + (WriteQuoted(s[1..], rest) + more);
    } else {
      assert WriteQuoted(s, rest) + more == "\"" + (rest + more);
    }
  }

  lemma {:induction false} WriteAppend(v: Json, rest: string, more: string)
    ensures Write(v, rest) + more == Write(v, rest + more)
    decreases v, 1, 0
  {
    match v {
      case Str(s) =>
        WriteQuotedAppend(s, rest, more);
        assert Write(v, rest) + more == "\"" + (WriteQuoted(s, rest) + more);
      case List(items) =>
        WriteItemsAppend(items, "", rest, more);
        assert Write(v, rest) + more == "[" + (WriteItems(items, "", rest) + more);
      case Obj(fields) =>
        WriteMembersAppend(v, fields.Keys, "", rest, more);
        assert Write(v, rest) + more == "{" + (WriteMembers(v, fields.Keys, "", rest) + more);
      case Null => Associate("null", rest, more);
      case Bool(b) => Associate(if b then "true" else "false", rest, more);
      case Num(t) => Associate(t, rest, more);
      case NonFinite => Associate("NaN", rest, more);
    }
  }

  lemma Associate(a: string, b: string, c: string)
    ensures (a + b) + c == a + (b + c)
  {
  }

  lemma {:induction false} WriteItemsAppend(items: seq<Json>, sep: string, rest: string, more: string)
    ensures WriteItems(items, sep, rest) + more == WriteItems(items, sep, rest + more)
    decreases items, 0, 0
  {
    if items != [] {
      var tail := WriteItems(items[1..], ",", rest);
      WriteItemsAppend(items[1..], ",", rest, more);
      WriteAppend(items[0], tail, more);
      assert WriteItems(items, sep, rest) + more == sep + (Write(items[0], tail) + more);
    } else {
      assert WriteItems(items, sep, rest) + more == "]" + (rest + more);
    }
  }

  lemma {:induction false} WriteMembersAppend(v: Json, ks: set<string>, sep: string, rest: string, more: string)
    requires v.Obj? && ks <= v.fields.Keys
    ensures WriteMembers(v, ks, sep, rest) + more == WriteMembers(v, ks, sep, rest + more)
    decreases v, 0, |ks|
  {
    if ks != {} {
      var k := Least(ks);
      var tail := WriteMembers(v, ks - {k}, ",", rest);
      var body := Write(v.fields[k], tail);
      WriteMembersAppend(v, ks - {k}, ",", rest, more);
      WriteAppend(v.fields[k], tail, more);
      assert (":" + body) + more == ":" + (body + more);
      WriteQuotedAppend(k, ":" + body, more);
      assert WriteMembers(v, ks, sep, rest) + more == sep + "\"" + (WriteQuoted(k, ":" + body) + more);
    } else {
      assert WriteMembers(v, ks, sep, rest) + more == "}" + (rest + more);
    }
  }

  // ---- canonical text determines the value ----

  lemma DropPrefix(p: string, s: string, t: string)
    requires p + s == p + t
    ensures s == t
  {
    assert s == (p + s)[|p|..] && t == (p + t)[|p|..];
  }

  lemma HexDigitsDiffer(m: nat, n: nat)
    requires m < 256 && n < 256
    requires HexDigit(m / 16) == HexDigit(n / 16) && HexDigit(m % 16) == HexDigit(n % 16)
    ensures m == n
  {
  }

  lemma EscapeCharsDiffer(c: char, d: char, s: string, t: string)
    requires EscapeChar(c) + s == EscapeChar(d) + t
    ensures c == d
  {
    var e, f := EscapeChar(c), EscapeChar(d);
    assert forall i | 0 <= i < |e| :: (e + s)[i] == e[i];
    assert forall i | 0 <= i < |f| :: (f + t)[i] == f[i];
    assert e[0] == f[0];
    if e[0] == '\\' {
      assert e[1] == f[1];
      if e[1] == 'u' {
        assert e[4] == f[4] && e[5] == f[5];
        HexDigitsDiffer(c as int, d as int);
      }
    }
  }

  lemma {:induction false} QuotedDecodes(a: string, b: string, s: string, t: string)
    requires WriteQuoted(a, s) == WriteQuoted(b, t)
    ensures a == b && s == t
  {
    assert a == [] ==> WriteQuoted(a, s)[0] == '\"';
    assert b == [] ==> WriteQuoted(b, t)[0] == '\"';
    assert a != [] ==> WriteQuoted(a, s)[0] == EscapeChar(a[0])[0] != '\"';
    assert b != [] ==> WriteQuoted(b, t)[0] == EscapeChar(b[0])[0] != '\"';
    if a == [] {
      DropPrefix("\"", s, t);
    } else {
      var x, y := WriteQuoted(a[1..], s), WriteQuoted(b[1..], t);
      EscapeCharsDiffer(a[0], b[0], x, y);
      DropPrefix(EscapeChar(a[0]), x, y);
      QuotedDecodes(a[1..], b[1..], s, t);
      assert a == [a[0]] + a[1..] && b == [b[0]] + b[1..];
    }
  }

  /** The text that follows cannot continue a number. */
  predicate Stops(s: string) {
    s == [] || !NumberChar(s[0])
  }

  lemma NumberDecodes(a: NumberText, b: NumberText, s: string, t: string)
    requires a + s == b + t && Stops(s) && Stops(t)
    ensures a == b && s == t
  {
    var x, y := a + s, b + t;
    assert forall i | 0 <= i < |a| :: x[i] == a[i] && NumberChar(x[i]);
    assert forall i | 0 <= i < |b| :: y[i] == b[i] && NumberChar(y[i]);
    assert |a| < |x| ==> x[|a|] == s[0];
    assert |b| < |y| ==> y[|b|] == t[0];
    assert |a| == |b|;
    assert a == x[..|a|] == b;
    DropPrefix(a, s, t);
  }

  /** The first character tells the kind of value. */
  function KindChar(v: Json): char {
    match v
    case Null => 'n'
    case Bool(b) => if b then 't' else 'f'
    case Num(t) => t[0]
    case NonFinite => 'N'
    case Str(_) => '\"'
    case List(_) => '['
    case Obj(_) => '{'
  }

  lemma WriteStart(v: Json, s: string)
    ensures Write(v, s) != [] && Write(v, s)[0] == KindChar(v)
  {
  }

  lemma ItemsStart(items: seq<Json>, sep: string, s: string)
    requires sep == "" || sep == ","
    ensures var x := WriteItems(items, sep, s);
            x != [] && x[0] == if items == [] then ']' else if sep == "" then KindChar(items[0]) else ','
  {
    if items != [] {
      WriteStart(items[0], WriteItems(items[1..], ",", s));
    }
  }

  lemma MembersStart(v: Json, ks: set<string>, sep: string, s: string)
    requires v.Obj? && ks <= v.fields.Keys && (sep == "" || sep == ",")
    ensures var x := WriteMembers(v, ks, sep, s);
            x != [] && x[0] == if ks == {} then '}' else if sep == "" then '\"' else ','
  {
  }

  /** Reading a value off the front of a text: the value and what follows it are determined. */
  lemma {:induction false} WriteDecodes(v: Json, w: Json, s: string, t: string)
    requires Write(v, s) == Write(w, t)
    requires v.Num? ==> Stops(s)
    requires w.Num? ==> Stops(t)
    ensures v == w && s == t
    decreases v, 1, 0
  {
    WriteStart(v, s);
    WriteStart(w, t);
    match v {
      case Null => DropPrefix("null", s, t);
      case Bool(b) => DropPrefix(if b then "true" else "false", s, t);
      case Num(a) => NumberDecodes(a, w.text, s, t);
      case NonFinite => DropPrefix("NaN", s, t);
      case Str(a) =>
        DropPrefix("\"", WriteQuoted(a, s), WriteQuoted(w.s, t));
        QuotedDecodes(a, w.s, s, t);
      case List(items) =>
        DropPrefix("[", WriteItems(items, "", s), WriteItems(w.items, "", t));
        ItemsDecode(items, w.items, "", s, t);
      case Obj(fields) =>
        DropPrefix("{", WriteMembers(v, fields.Keys, "", s), WriteMembers(w, w.fields.Keys, "", t));
        MembersDecode(v, w, fields.Keys, w.fields.Keys, "", s, t);
        assert fields == w.fields;
    }
  }

  lemma {:induction false} ItemsDecode(a: seq<Json>, b: seq<Json>, sep: string, s: string, t: string)
    requires sep == "" || sep == ","
    requires WriteItems(a, sep, s) == WriteItems(b, sep, t)
    ensures a == b && s == t
    decreases a, 0, 0
  {
    ItemsStart(a, sep, s);
    ItemsStart(b, sep, t);
    assert a == [] <==> b == [];
    if a == [] {
      DropPrefix("]", s, t);
    } else {
      var x, y := WriteItems(a[1..], ",", s), WriteItems(b[1..], ",", t);
      DropPrefix(sep, Write(a[0], x), Write(b[0], y));
      ItemsStart(a[1..], ",", s);
      ItemsStart(b[1..], ",", t);
      WriteDecodes(a[0], b[0], x, y);
      ItemsDecode(a[1..], b[1..], ",", s, t);
      assert a == [a[0]] + a[1..] && b == [b[0]] + b[1..];
    }
  }

  lemma QuotedKeyDecodes(k: string, l: string, x: string, y: string, sep: string)
    requires sep + "\"" + WriteQuoted(k, ":" + x) == sep + "\"" + WriteQuoted(l, ":" + y)
    ensures k == l && x == y
  {
    DropPrefix(sep + "\"", WriteQuoted(k, ":" + x), WriteQuoted(l, ":" + y));
    QuotedDecodes(k, l, ":" + x, ":" + y);
    DropPrefix(":", x, y);
  }

  /** The first member's key is read off, and the text of its value starts what follows. */
  lemma KeyDecodes(v: Json, w: Json, ks: set<string>, ls: set<string>, sep: string, s: string, t: string)
    requires v.Obj? && ks <= v.fields.Keys && w.Obj? && ls <= w.fields.Keys
    requires sep == "" || sep == ","
    requires WriteMembers(v, ks, sep, s) == WriteMembers(w, ls, sep, t)
    ensures ks == {} <==> ls == {}
    ensures ks == {} ==> s == t
    ensures ks != {} ==>
              var k := Least(ks);
              && k == Least(ls)
              && Write(v.fields[k], WriteMembers(v, ks - {k}, ",", s)) == Write(w.fields[k], WriteMembers(w, ls - {k}, ",", t))
  {
    MembersStart(v, ks, sep, s);
    MembersStart(w, ls, sep, t);
    assert ks == {} <==> ls == {};
    if ks == {} {
      DropPrefix("}", s, t);
    } else {
      var k, l := Least(ks), Least(ls);
      QuotedKeyDecodes(k, l, Write(v.fields[k], WriteMembers(v, ks - {k}, ",", s)),
                       Write(w.fields[l], WriteMembers(w, ls - {l}, ",", t)), sep);
    }
  }

  lemma {:induction false} MembersDecode(v: Json, w: Json, ks: set<string>, ls: set<string>, sep: string, s: string, t: string)
    requires v.Obj? && ks <= v.fields.Keys && w.Obj? && ls <= w.fields.Keys
    requires sep == "" || sep == ","
    requires WriteMembers(v, ks, sep, s) == WriteMembers(w, ls, sep, t)
    ensures ks == ls && s == t
    ensures forall k | k in ks :: v.fields[k] == w.fields[k]
    decreases v, 0, |ks|
  {
    hide Write, WriteMembers, WriteQuoted;
    KeyDecodes(v, w, ks, ls, sep, s, t);
    if ks != {} {
      var k := Least(ks);
      var restKs, restLs := ks - {k}, ls - {k};
      MembersStart(v, restKs, ",", s);
      MembersStart(w, restLs, ",", t);
      WriteDecodes(v.fields[k], w.fields[k], WriteMembers(v, restKs, ",", s), WriteMembers(w, restLs, ",", t));
      MembersDecode(v, w, restKs, restLs, ",", s, t);
      assert ks == restKs + {k} && ls == restLs + {k};
    }
  }

  /** Equal canonical texts come from equal values. */
  lemma CanonicalInjective(v: Json, w: Json)
    requires Canonical(v) == Canonical(w)
    ensures v == w
  {
    WriteDecodes(v, w, "", "");
  }

  /** Two object texts that start the same long text are equal, and so is what follows them:
      no canonical object text is a proper prefix of another. */
  lemma ObjectTextsPrefixFree(v: Json, w: Json, s: string, t: string)
    requires v.Obj? && w.Obj? && Canonical(v) + s == Canonical(w) + t
    ensures v == w && s == t
  {
    WriteAppend(v, "", s);
    WriteAppend(w, "", t);
    assert "" + s == s && "" + t == t;
    WriteDecodes(v, w, s, t);
  }

  /** `fields.get(key)`. */
  function Get(fields: map<string, Json>, key: string): Json {
    if key in fields then fields[key] else Null
  }

  /** Python's truth value. */
  predicate Truthy(v: Json) {
    match v
    case Null => false
    case Bool(b) => b
    case Num(t) => t !in {"0", "0.0", "-0.0"}
    case NonFinite => true
    case Str(s) => s != []
    case List(items) => items != []
    case Obj(fields) => fields.Keys != {}
  }

  /** `str(v)`; for lists and objects their canonical text stands in for Python's own. */
  function PyText(v: Json): string {
    match v
    case Null => "None"
    case Bool(b) => if b then "True" else "False"
    case Num(t) => t
    case NonFinite => "nan"
    case Str(s) => s
    case _ => Canonical(v)
  }

  /** The texts of the values that are no containers. */
  lemma PyTextOfSimple(s: string, t: NumberText)
    ensures PyText(Str(s)) == s && PyText(Num(t)) == t && PyText(Null) == "None"
    ensures PyText(Bool(true)) == "True" && PyText(Bool(false)) == "False" && PyText(NonFinite) == "nan"
  {
  }

  /** What Python takes for false: nothing, zero and whatever is empty. */
  lemma FalsyIff(v: Json)
    ensures !Truthy(v) <==>
            || v == Null || v == Bool(false) || v == Str("") || v == List([]) || v == Obj(map[])
            || (v.Num? && v.text in ["0", "0.0", "-0.0"])
  {
    if v.Obj? && v.fields.Keys == {} {
      assert v.fields == map[];
    }
  }
}
