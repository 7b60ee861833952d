/** What a canonical text looks like: no spaces, the keys of an object in order, every string escaped. */
module Canon {
  import opened Text
  import opened Json

  /** The code points of `a` come before those of `b`: `a` is its beginning, or smaller where they first differ. */
  ghost predicate Before(a: string, b: string) {
    a < b || exists i: nat :: DifferAt(a, b, i)
  }

  predicate DifferAt(a: string, b: string, i: nat) {
    i < |a| && i < |b| && a[..i] == b[..i] && a[i] < b[i]
  }

  lemma BeforeTail(a: string, b: string)
    requires a != [] && b != [] && a[0] == b[0]
    ensures Before(a[1..], b[1..]) ==> Before(a, b)
  {
    var c, d := a[1..], b[1..];
    assert a == [a[0]] + c && b == [a[0]] + d;
    if i: nat :| DifferAt(c, d, i) {
      assert a[..i + 1] == [a[0]] + c[..i] && b[..i + 1] == [a[0]] + d[..i];
      assert DifferAt(a, b, i + 1);
    }
  }

  lemma TailBefore(a: string, b: string)
    requires a != [] && b != [] && a[0] == b[0]
    ensures Before(a, b) ==> Before(a[1..], b[1..])
  {
    var c, d := a[1..], b[1..];
    assert a == [a[0]] + c && b == [a[0]] + d;
    if i: nat :| DifferAt(a, b, i) {
      assert c[..i - 1] == a[..i][1..] && d[..i - 1] == b[..i][1..];
      assert DifferAt(c, d, i - 1);
    }
  }

  lemma {:induction false} BeforeIff(a: string, b: string)
    ensures Before(a, b) <==> AtMost(a, b) && a != b
  {
    if a == [] || b == [] {
    } else if a[0] == b[0] {
      BeforeTail(a, b);
      TailBefore(a, b);
      BeforeIff(a[1..], b[1..]);
      hide Before;
      assert a == [a[0]] + a[1..] && b == [a[0]] + b[1..];
    } else {
      FirstDecides(a, b);
    }
  }

  lemma FirstDecides(a: string, b: string)
    requires a != [] && b != [] && a[0] != b[0]
    ensures Before(a, b) <==> a[0] < b[0]
  {
    if a[0] < b[0] {
      FirstDiffers(a, b);
    } else {
      forall i: nat ensures !DifferAt(a, b, i) {
        if 0 < i <= |a| && i <= |b| {
          assert a[..i][0] == a[0] && b[..i][0] == b[0];
        }
      }
    }
  }

  lemma FirstDiffers(a: string, b: string)
    requires a != [] && b != [] && a[0] < b[0]
    ensures Before(a, b)
  {
    assert DifferAt(a, b, 0);
  }

  // ---- strings ----

  const ESCAPED := ['\"', '\\', '\n', '\r', '\t', '\U{0008}', '\U{000C}']
  const ESCAPES := "\"\\nrtbf"
  const DIGITS := "0123456789abcdef"

  /** The text of one character of a string. */
  ghost predicate Escapes(c: char, t: string) {
    && (forall i | 0 <= i < 7 :: c == ESCAPED[i] ==> t == ['\\', ESCAPES[i]])
    && (c !in ESCAPED ==>
          if c < ' ' then t == "\\u00" + [DIGITS[c as int / 16], DIGITS[c as int % 16]] else t == [c])
  }

  lemma CharWritten(c: char)
    ensures Escapes(c, EscapeChar(c))
  {
  }

  function Concat(parts: seq<string>): string {
    if parts == [] then "" else parts[0] + Concat(parts[1..])
  }

  lemma Grouped(a: string, b: string, c: string, d: string)
    ensures a + (b + c + d) == (a + b) + c + d
  {
  }

  lemma Bracketed(open: string, text: string, close: string)
    ensures open + (text + (close + "")) == open + text + close
  {
  }

  lemma {:induction false} QuotedParts(s: string, rest: string, parts: seq<string>)
    requires |parts| == |s| && forall i | 0 <= i < |s| :: parts[i] == EscapeChar(s[i])
    ensures WriteQuoted(s, rest) == Concat(parts) + "\"" + rest
  {
    hide EscapeChar;
    if s != [] {
      QuotedParts(s[1..], rest, parts[1..]);
      Grouped(parts[0], Concat(parts[1..]), "\"", rest);
    }
  }

  /** A string is written between quotes, character by character. */
  lemma StringWritten(s: string)
    ensures exists parts: seq<string> ::
              |parts| == |s| && (forall i | 0 <= i < |s| :: Escapes(s[i], parts[i])) && Canonical(Str(s)) == "\"" + Concat(parts) + "\""
  {
    hide Escapes, EscapeChar;
    var parts := seq(|s|, i requires 0 <= i < |s| => EscapeChar(s[i]));
    forall i | 0 <= i < |s| ensures Escapes(s[i], parts[i]) {
      CharWritten(s[i]);
    }
    QuotedParts(s, "", parts);
  }

  /** A string in which nothing needs escaping is written as it is. */
  lemma PlainWritten(s: string)
    requires forall i | 0 <= i < |s| :: s[i] >= ' ' && s[i] != '\"' && s[i] != '\\'
    ensures Canonical(Str(s)) == "\"" + s + "\""
  {
    PlainQuoted(s);
  }

  lemma {:induction false} PlainQuoted(s: string)
    requires forall i | 0 <= i < |s| :: s[i] >= ' ' && s[i] != '\"' && s[i] != '\\'
    ensures WriteQuoted(s, "") == s + "\""
  {
    if s != [] {
      PlainQuoted(s[1..]);
      assert s == [s[0]] + s[1..];
    }
  }

  // ---- lists ----

  lemma WriteSplits(v: Json, rest: string)
    ensures Write(v, rest) == Canonical(v) + rest
  {
    WriteAppend(v, "", rest);
    assert "" + rest == rest;
  }

  /** The first of several texts, then the others. */
  lemma JoinFirst(texts: seq<string>, end: string)
    requires texts != []
    ensures Join(texts, ',') + end == texts[0] + if |texts| == 1 then end else "," + (Join(texts[1..], ',') + end)
  {
  }

  lemma {:induction false} ItemsWritten(items: seq<Json>, rest: string, texts: seq<string>)
    requires |texts| == |items| && forall i | 0 <= i < |items| :: texts[i] == Canonical(items[i])
    ensures WriteItems(items, "", rest) == Join(texts, ',') + ("]" + rest)
    ensures items != [] ==> WriteItems(items, ",", rest) == "," + (Join(texts, ',') + ("]" + rest))
  {
    hide Canonical, Write;
    if items != [] {
      var tail := WriteItems(items[1..], ",", rest);
      ItemsWritten(items[1..], rest, texts[1..]);
      WriteSplits(items[0], tail);
      JoinFirst(texts, "]" + rest);
    }
  }

  /** The items of a list are written between brackets, with a comma between two. */
  lemma ListWritten(items: seq<Json>, texts: seq<string>)
    requires |texts| == |items| && forall i | 0 <= i < |items| :: texts[i] == Canonical(items[i])
    ensures Canonical(List(items)) == "[" + Join(texts, ',') + "]"
  {
    hide WriteItems, Join;
    ItemsWritten(items, "", texts);
    Bracketed("[", Join(texts, ','), "]");
  }

  // ---- objects ----

  function MemberText(fields: map<string, Json>, key: string): string {
    Canonical(Str(key)) + ":" + Canonical(Get(fields, key))
  }

  lemma MemberWritten(v: Json, key: string, rest: string)
    requires v.Obj? && key in v.fields
    ensures "\"" + WriteQuoted(key, ":" + Write(v.fields[key], rest)) == MemberText(v.fields, key) + rest
  {
    hide Write, WriteQuoted, Canonical;
    var value := Canonical(v.fields[key]);
    WriteSplits(v.fields[key], rest);
    QuotedSplits(key, ":" + (value + rest));
    assert "\"" + (WriteQuoted(key, "") + (":" + (value + rest))) == ("\"" + WriteQuoted(key, "")) + ":" + value + rest;
  }

  lemma QuotedSplits(s: string, rest: string)
    ensures WriteQuoted(s, rest) == WriteQuoted(s, "") + rest && Canonical(Str(s)) == "\"" + WriteQuoted(s, "")
  {
    WriteQuotedAppend(s, "", rest);
    assert "" + rest == rest;
  }

  /** The sequence lists the keys in order. */
  ghost predicate InOrder(keys: seq<string>, s: set<string>) {
    && (forall k :: k in keys <==> k in s)
    && (forall i, j | 0 <= i < j < |keys| :: Before(keys[i], keys[j]))
  }

  lemma FirstIsLeast(keys: seq<string>, s: set<string>)
    requires InOrder(keys, s) && keys != []
    ensures s != {} && Least(s) == keys[0] && InOrder(keys[1..], s - {keys[0]})
  {
    assert keys[0] in keys;
    forall j | j in s ensures AtMost(keys[0], j) && (j != keys[0] ==> j in keys[1..]) {
      var n :| 0 <= n < |keys| && keys[n] == j;
      if n > 0 {
        BeforeIff(keys[0], keys[n]);
        assert j == keys[1..][n - 1];
      } else {
        AtMostTotal(j, j);
      }
    }
    LeastUnique(s);
    forall k | k in keys[1..] ensures k in s && k != keys[0] {
      var n :| 0 < n < |keys| && keys[n] == k;
      BeforeIff(keys[0], keys[n]);
    }
  }

  lemma {:induction false} MembersWritten(v: Json, s: set<string>, rest: string, keys: seq<string>, texts: seq<string>)
    requires v.Obj? && s <= v.fields.Keys && InOrder(keys, s)
    requires |texts| == |keys| && forall i | 0 <= i < |keys| :: texts[i] == MemberText(v.fields, keys[i])
    ensures WriteMembers(v, s, "", rest) == Join(texts, ',') + ("}" + rest)
    ensures keys != [] ==> WriteMembers(v, s, ",", rest) == "," + (Join(texts, ',') + ("}" + rest))
    decreases |keys|
  {
    hide MemberText, Before, Canonical, WriteQuoted, Write;
    if keys != [] {
      FirstIsLeast(keys, s);
      var tail := WriteMembers(v, s - {keys[0]}, ",", rest);
      MembersWritten(v, s - {keys[0]}, rest, keys[1..], texts[1..]);
      MemberWritten(v, keys[0], tail);
      JoinFirst(texts, "}" + rest);
      if |keys| == 1 {
        NoneLeft(v, s, keys, rest);
      }
      MembersFirst(v, s, keys[0], "", rest);
      MembersFirst(v, s, keys[0], ",", rest);
    } else {
      assert s == {};
    }
  }

  lemma NoneLeft(v: Json, s: set<string>, keys: seq<string>, rest: string)
    requires v.Obj? && s <= v.fields.Keys && InOrder(keys, s) && |keys| == 1
    ensures WriteMembers(v, s - {keys[0]}, ",", rest) == "}" + rest
  {
    hide Before;
    assert s - {keys[0]} == {};
  }

  lemma MembersFirst(v: Json, s: set<string>, key: string, sep: string, rest: string)
    requires v.Obj? && s <= v.fields.Keys && s != {} && Least(s) == key
    ensures WriteMembers(v, s, sep, rest) == sep + ("\"" + WriteQuoted(key, ":" + Write(v.fields[key], WriteMembers(v, s - {key}, ",", rest))))
  {
  }

  /** The members of an object are written between braces, in the order of their keys, with a comma between two. */
  lemma ObjectWritten(fields: map<string, Json>, keys: seq<string>, texts: seq<string>)
    requires InOrder(keys, fields.Keys)
    requires |texts| == |keys| && forall i | 0 <= i < |keys| :: texts[i] == MemberText(fields, keys[i])
    ensures Canonical(Obj(fields)) == "{" + Join(texts, ',') + "}"
  {
    hide WriteMembers, Join, MemberText, InOrder;
    MembersWritten(Obj(fields), fields.Keys, "", keys, texts);
    Bracketed("{", Join(texts, ','), "}");
  }

  /** The other values. */
  lemma SimpleWritten(t: NumberText)
    ensures Canonical(Null) == "null" && Canonical(Bool(true)) == "true" && Canonical(Bool(false)) == "false" && Canonical(Num(t)) == t
  {
  }
}
