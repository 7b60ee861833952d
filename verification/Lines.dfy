/** How a file of JSON texts falls into lines: `str.splitlines` cuts at more characters than JSON
    escapes. */
module Lines {
  import opened Text
  import opened Json

  /** The characters at which `str.splitlines` cuts. */
  predicate LineBoundary(c: char) {
    c in {'\n', '\r', '\U{000B}', '\U{000C}', '\U{001C}', '\U{001D}', '\U{001E}'} || Separator(c)
  }

  /** Those of them that JSON does not escape. */
  predicate Separator(c: char) {
    c in {'\U{0085}', '\U{2028}', '\U{2029}'}
  }

  /** The pieces between boundaries.  (`splitlines` takes a carriage return and a line feed as one
      boundary and drops an empty last piece: blank pieces, which every reader skips.) */
  function Pieces(s: string): (r: seq<string>)
    ensures |r| >= 1
  {
    if s == [] then [[]]
    else if LineBoundary(s[0]) then [[]] + Pieces(s[1..])
    else
      var rest := Pieces(s[1..]);
      [[s[0]] + rest[0]] + rest[1..]
  }

  predicate Unbroken(s: string) {
    forall c | c in s :: !LineBoundary(c)
  }

  predicate NoSeparator(s: string) {
    forall c | c in s :: !Separator(c)
  }

  /** No key and no string at any depth holds one of the three characters. */
  predicate NoLineBreak(v: Json) {
    match v
    case Str(s) => NoSeparator(s)
    case List(items) => forall x | x in items :: NoLineBreak(x)
    case Obj(fields) => forall k | k in fields :: NoSeparator(k) && NoLineBreak(fields[k])
    case _ => true
  }

  // ---- when a canonical text is one line ----

  lemma UnbrokenConcat(a: string, b: string)
    ensures Unbroken(a + b) <==> Unbroken(a) && Unbroken(b)
  {
    assert forall c :: c in a + b <==> c in a || c in b;
  }

  lemma EscapeUnbroken(c: char)
    ensures Unbroken(EscapeChar(c)) <==> !Separator(c)
  {
    if Separator(c) {
      assert c in EscapeChar(c);
    }
  }

  lemma {:induction false} QuotedUnbroken(s: string, rest: string)
    ensures Unbroken(WriteQuoted(s, rest)) <==> NoSeparator(s) && Unbroken(rest)
  {
    if s == [] {
      UnbrokenConcat("\"", rest);
    } else {
      QuotedUnbroken(s[1..], rest);
      EscapeUnbroken(s[0]);
      UnbrokenConcat(EscapeChar(s[0]), WriteQuoted(s[1..], rest));
      assert s == [s[0]] + s[1..];
    }
  }

  /** A canonical text has no boundary exactly when the value has no line break. */
  lemma {:induction false} WriteUnbroken(v: Json, rest: string)
    ensures Unbroken(Write(v, rest)) <==> NoLineBreak(v) && Unbroken(rest)
    decreases v, 1, 0
  {
    match v {
      case Null => UnbrokenConcat("null", rest);
      case Bool(b) => UnbrokenConcat(if b then "true" else "false", rest);
      case Num(t) => UnbrokenConcat(t, rest);
      case NonFinite => UnbrokenConcat("NaN", rest);
      case Str(s) =>
        QuotedUnbroken(s, rest);
        UnbrokenConcat("\"", WriteQuoted(s, rest));
      case List(items) =>
        ItemsUnbroken(items, "", rest);
        UnbrokenConcat("[", WriteItems(items, "", rest));
      case Obj(fields) =>
        MembersUnbroken(v, fields.Keys, "", rest);
        UnbrokenConcat("{", WriteMembers(v, fields.Keys, "", rest));
    }
  }

  lemma {:induction false} ItemsUnbroken(items: seq<Json>, sep: string, rest: string)
    requires sep == "" || sep == ","
    ensures Unbroken(WriteItems(items, sep, rest)) <==> (forall x | x in items :: NoLineBreak(x)) && Unbroken(rest)
    decreases items, 0, 0
  {
    if items == [] {
      UnbrokenConcat("]", rest);
    } else {
      var tail := WriteItems(items[1..], ",", rest);
      ItemsUnbroken(items[1..], ",", rest);
      WriteUnbroken(items[0], tail);
      UnbrokenConcat(sep, Write(items[0], tail));
      assert items == [items[0]] + items[1..];
    }
  }

  lemma {:induction false} MembersUnbroken(v: Json, ks: set<string>, sep: string, rest: string)
    requires v.Obj? && ks <= v.fields.Keys && (sep == "" || sep == ",")
    ensures Unbroken(WriteMembers(v, ks, sep, rest)) <==>
            (forall k | k in ks :: NoSeparator(k) && NoLineBreak(v.fields[k])) && Unbroken(rest)
    decreases v, 0, |ks|
  {
    if ks == {} {
      UnbrokenConcat("}", rest);
    } else {
      var k := Least(ks);
      var tail := WriteMembers(v, ks - {k}, ",", rest);
      MembersUnbroken(v, ks - {k}, ",", rest);
      WriteUnbroken(v.fields[k], tail);
      MemberUnbroken(k, Write(v.fields[k], tail), sep);
      assert ks == (ks - {k}) + {k};
    }
  }

  lemma MemberUnbroken(k: string, body: string, sep: string)
    requires sep == "" || sep == ","
    ensures Unbroken(sep + "\"" + WriteQuoted(k, ":" + body)) <==> NoSeparator(k) && Unbroken(body)
  {
    UnbrokenConcat(":", body);
    QuotedUnbroken(k, ":" + body);
    UnbrokenConcat(sep + "\"", WriteQuoted(k, ":" + body));
  }

  // ---- where a canonical text is cut when it is not ----

  /** Where a reader of JSON is: outside strings, in one, or after a backslash in one. */
  datatype Lex = Outside | Inside | Escaped

  function After(l: Lex, c: char): Lex {
    match l
    case Outside => if c == '\"' then Inside else Outside
    case Inside => if c == '\"' then Outside else if c == '\\' then Escaped else Inside
    case Escaped => Inside
  }

  function Scan(l: Lex, s: string): Lex
    decreases |s|
  {
    if s == [] then l else Scan(After(l, s[0]), s[1..])
  }

  /** Every boundary in `s` is in a string. */
  predicate CutsInside(l: Lex, s: string)
    decreases |s|
  {
    s == [] || ((LineBoundary(s[0]) ==> l == Inside) && CutsInside(After(l, s[0]), s[1..]))
  }

  /** Read from `l`, the text ends in `to` and is cut only inside strings. */
  predicate Passes(l: Lex, s: string, to: Lex) {
    Scan(l, s) == to && CutsInside(l, s)
  }

  lemma {:induction false} PassesConcat(l: Lex, a: string, m: Lex, b: string, to: Lex)
    requires Passes(l, a, m) && Passes(m, b, to)
    ensures Passes(l, a + b, to)
    decreases |a|
  {
    if a == [] {
      assert a + b == b;
    } else {
      PassesConcat(After(l, a[0]), a[1..], m, b, to);
      assert (a + b)[1..] == a[1..] + b;
    }
  }

  /** Texts without quotes and boundaries are passed over. */
  lemma {:induction false} PlainPasses(s: string)
    requires '\"' !in s && Unbroken(s)
    ensures Passes(Outside, s, Outside)
  {
    if s != [] {
      PlainPasses(s[1..]);
    }
  }

  lemma CharPasses(l: Lex, c: char, rest: string, to: Lex)
    requires LineBoundary(c) ==> l == Inside
    requires Passes(After(l, c), rest, to)
    ensures Passes(l, [c] + rest, to)
  {
    assert ([c] + rest)[1..] == rest;
  }

  lemma EscapePasses(c: char)
    ensures Passes(Inside, EscapeChar(c), Inside)
  {
    var e := EscapeChar(c);
    if |e| == 1 {
      CharPasses(Inside, c, [], Inside);
      assert e == [c] + [];
    } else if |e| == 2 {
      CharPasses(Escaped, e[1], [], Inside);
      CharPasses(Inside, e[0], [e[1]], Inside);
      assert e == [e[0]] + [e[1]] && [e[1]] == [e[1]] + [];
    } else {
      HexPasses(e[2], e[3], e[4], e[5]);
      CharPasses(Escaped, e[1], [e[2], e[3], e[4], e[5]], Inside);
      CharPasses(Inside, e[0], [e[1], e[2], e[3], e[4], e[5]], Inside);
      assert e == [e[0]] + [e[1], e[2], e[3], e[4], e[5]];
      assert [e[1], e[2], e[3], e[4], e[5]] == [e[1]] + [e[2], e[3], e[4], e[5]];
    }
  }

  lemma HexPasses(a: char, b: char, c: char, d: char)
    requires forall x | x in [a, b, c, d] :: After(Inside, x) == Inside && !LineBoundary(x)
    ensures Passes(Inside, [a, b, c, d], Inside)
  {
    CharPasses(Inside, d, [], Inside);
    CharPasses(Inside, c, [d], Inside);
    CharPasses(Inside, b, [c, d], Inside);
    CharPasses(Inside, a, [b, c, d], Inside);
  }

  lemma {:induction false} QuotedPasses(s: string, rest: string, to: Lex)
    requires Passes(Outside, rest, to)
    ensures Passes(Inside, WriteQuoted(s, rest), to)
  {
    if s == [] {
      assert ("\"" + rest)[1..] == rest;
    } else {
      QuotedPasses(s[1..], rest, to);
      EscapePasses(s[0]);
      PassesConcat(Inside, EscapeChar(s[0]), Inside, WriteQuoted(s[1..], rest), to);
    }
  }

  lemma OpenPasses(s: string, to: Lex)
    requires Passes(Inside, s, to)
    ensures Passes(Outside, "\"" + s, to)
  {
    CharPasses(Outside, '\"', s, to);
  }

  lemma BeforePasses(mark: string, rest: string, to: Lex)
    requires '\"' !in mark && Unbroken(mark) && Passes(Outside, rest, to)
    ensures Passes(Outside, mark + rest, to)
  {
    PlainPasses(mark);
    PassesConcat(Outside, mark, Outside, rest, to);
  }

  /** A canonical text begins and ends outside strings, and is cut only inside them. */
  lemma {:induction false} WritePasses(v: Json, rest: string, to: Lex)
    requires Passes(Outside, rest, to)
    ensures Passes(Outside, Write(v, rest), to)
    decreases v, 1, 0
  {
    match v {
      case Null => BeforePasses("null", rest, to);
      case Bool(b) => BeforePasses(if b then "true" else "false", rest, to);
      case Num(t) => BeforePasses(t, rest, to);
      case NonFinite => BeforePasses("NaN", rest, to);
      case Str(s) =>
        QuotedPasses(s, rest, to);
        OpenPasses(WriteQuoted(s, rest), to);
      case List(items) =>
        ItemsPass(items, "", rest, to);
        BeforePasses("[", WriteItems(items, "", rest), to);
      case Obj(fields) =>
        MembersPass(v, fields.Keys, "", rest, to);
        BeforePasses("{", WriteMembers(v, fields.Keys, "", rest), to);
    }
  }

  lemma {:induction false} ItemsPass(items: seq<Json>, sep: string, rest: string, to: Lex)
    requires (sep == "" || sep == ",") && Passes(Outside, rest, to)
    ensures Passes(Outside, WriteItems(items, sep, rest), to)
    decreases items, 0, 0
  {
    if items == [] {
      BeforePasses("]", rest, to);
    } else {
      var tail := WriteItems(items[1..], ",", rest);
      ItemsPass(items[1..], ",", rest, to);
      WritePasses(items[0], tail, to);
      BeforePasses(sep, Write(items[0], tail), to);
    }
  }

  lemma {:induction false} MembersPass(v: Json, ks: set<string>, sep: string, rest: string, to: Lex)
    requires v.Obj? && ks <= v.fields.Keys && (sep == "" || sep == ",") && Passes(Outside, rest, to)
    ensures Passes(Outside, WriteMembers(v, ks, sep, rest), to)
    decreases v, 0, |ks|
  {
    if ks == {} {
      BeforePasses("}", rest, to);
    } else {
      var k := Least(ks);
      var tail := WriteMembers(v, ks - {k}, ",", rest);
      MembersPass(v, ks - {k}, ",", rest, to);
      WritePasses(v.fields[k], tail, to);
      MemberPasses(k, Write(v.fields[k], tail), sep, to);
    }
  }

  lemma MemberPasses(k: string, body: string, sep: string, to: Lex)
    requires (sep == "" || sep == ",") && Passes(Outside, body, to)
    ensures Passes(Outside, sep + "\"" + WriteQuoted(k, ":" + body), to)
  {
    BeforePasses(":", body, to);
    QuotedPasses(k, ":" + body, to);
    OpenPasses(WriteQuoted(k, ":" + body), to);
    BeforePasses(sep, "\"" + WriteQuoted(k, ":" + body), to);
    assert sep + "\"" + WriteQuoted(k, ":" + body) == sep + ("\"" + WriteQuoted(k, ":" + body));
  }

  // ---- the pieces of a canonical text ----

  lemma {:induction false} PiecesWhole(s: string)
    ensures Unbroken(s) <==> Pieces(s) == [s]
    ensures !Unbroken(s) ==> |Pieces(s)| >= 2
  {
    if s != [] {
      PiecesWhole(s[1..]);
      assert s == [s[0]] + s[1..];
      if !LineBoundary(s[0]) && Unbroken(s[1..]) {
        assert [s[1..]][1..] == [];
      }
    }
  }

  lemma {:induction false} FirstPieceEndsInside(l: Lex, s: string)
    requires CutsInside(l, s) && !Unbroken(s)
    ensures Scan(l, Pieces(s)[0]) == Inside
    decreases |s|
  {
    if !LineBoundary(s[0]) {
      assert s == [s[0]] + s[1..];
      FirstPieceEndsInside(After(l, s[0]), s[1..]);
      assert Pieces(s)[0][1..] == Pieces(s[1..])[0];
    }
  }

  /** A canonical text is one line exactly when the value has no line break.  Otherwise its first
      line ends inside a string, which no canonical text does. */
  lemma CanonicalPieces(v: Json)
    ensures NoLineBreak(v) <==> Pieces(Canonical(v)) == [Canonical(v)]
    ensures !NoLineBreak(v) ==> Scan(Outside, Pieces(Canonical(v))[0]) == Inside
    ensures Scan(Outside, Canonical(v)) == Outside
  {
    WriteUnbroken(v, "");
    WritePasses(v, "", Outside);
    PiecesWhole(Canonical(v));
    if !NoLineBreak(v) {
      FirstPieceEndsInside(Outside, Canonical(v));
    }
  }
}
