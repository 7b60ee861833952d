/** Strings as Python handles them: order by code point, lower case, splitting and joining. */
module Text {

  /** `a <= b` on strings: lexicographic by code point. */
  predicate AtMost(a: string, b: string) {
    a == [] || (b != [] && (a[0] < b[0] || (a[0] == b[0] && AtMost(a[1..], b[1..]))))
  }

  lemma AtMostTotal(a: string, b: string)
    ensures AtMost(a, b) || AtMost(b, a)
  {
  }

  lemma AtMostAntisymmetric(a: string, b: string)
    requires AtMost(a, b) && AtMost(b, a)
    ensures a == b
  {
    if a != [] {
      AtMostAntisymmetric(a[1..], b[1..]);
      assert a == [a[0]] + a[1..] && b == [b[0]] + b[1..];
    }
  }

  lemma AtMostTransitive(a: string, b: string, c: string)
    requires AtMost(a, b) && AtMost(b, c)
    ensures AtMost(a, c)
  {
    if a != [] && a[0] == b[0] == c[0] {
      AtMostTransitive(a[1..], b[1..], c[1..]);
    }
  }

  ghost predicate IsLeast(k: string, s: set<string>) {
    k in s && forall j | j in s :: AtMost(k, j)
  }

  lemma LeastExists(s: set<string>)
    requires s != {}
    ensures exists k :: IsLeast(k, s)
  {
    var x :| x in s;
    AtMostTotal(x, x);
    if s == {x} {
      assert IsLeast(x, s);
    } else {
      LeastExists(s - {x});
      var k :| IsLeast(k, s - {x});
      AtMostTotal(k, x);
      if AtMost(k, x) {
        assert IsLeast(k, s);
      } else {
        forall j | j in s - {x} ensures AtMost(x, j) {
          AtMostTransitive(x, k, j);
        }
        assert IsLeast(x, s);
      }
    }
  }

  lemma LeastUnique(s: set<string>)
    ensures forall a, b | a in s && b in s && IsLeast(a, s) && IsLeast(b, s) :: a == b
  {
    forall a, b | a in s && b in s && IsLeast(a, s) && IsLeast(b, s) ensures a == b {
      AtMostAntisymmetric(a, b);
    }
  }

  /** The key that `sort_keys=True` writes first. */
  function Least(s: set<string>): (k: string)
    requires s != {}
    ensures IsLeast(k, s)
  {
    LeastExists(s);
    LeastUnique(s);
    var k :| k in s && (forall j | j in s :: AtMost(k, j));
    k
  }

  /** `str.lower` on one character.  ASCII letters and the Kelvin sign are the only characters
      whose lower case contains an ASCII letter on its own, and every use below compares the
      result with an ASCII word. */
  function LowerChar(c: char): char {
    if 'A' <= c <= 'Z' then ((c as int) + 32) as char
    else if c == '\U{212A}' then 'k'
    else c
  }

  function Lower(s: string): string {
    seq(|s|, i requires 0 <= i < |s| => LowerChar(s[i]))
  }

  /** `s.replace(a, b)` for single characters. */
  function ReplaceChar(s: string, a: char, b: char): string {
    seq(|s|, i requires 0 <= i < |s| => if s[i] == a then b else s[i])
  }

  /** `word in s`. */
  predicate Contains(s: string, word: string) {
    |word| <= |s| && (s[..|word|] == word || Contains(s[1..], word))
  }

  /** `word` stands in `s` at place `i`. */
  predicate HoldsWordAt(s: string, word: string, i: nat) {
    i + |word| <= |s| && s[i..i + |word|] == word
  }

  ghost predicate HoldsWord(s: string, word: string) {
    exists i: nat :: HoldsWordAt(s, word, i)
  }

  lemma {:induction false} ContainsIff(s: string, word: string)
    ensures Contains(s, word) <==> HoldsWord(s, word)
    decreases |s|
  {
    if |word| <= |s| {
      if s[..|word|] == word {
        assert HoldsWordAt(s, word, 0);
      } else {
        ContainsIff(s[1..], word);
        if i: nat :| HoldsWordAt(s, word, i) {
          assert i > 0 && HoldsWordAt(s[1..], word, i - 1);
        }
        if i: nat :| HoldsWordAt(s[1..], word, i) {
          assert HoldsWordAt(s, word, i + 1);
        }
      }
    }
  }

  /** Lower case keeps the place in the alphabet, turns the Kelvin sign into `k`, and changes nothing
      else. */
  lemma LowerLetters(s: string, i: nat)
    requires i < |s|
    ensures |Lower(s)| == |s|
    ensures 'A' <= s[i] <= 'Z' ==> 'a' <= Lower(s)[i] <= 'z' && Lower(s)[i] as int - 'a' as int == s[i] as int - 'A' as int
    ensures s[i] == '\U{212A}' ==> Lower(s)[i] == 'k'
    ensures !('A' <= s[i] <= 'Z') && s[i] != '\U{212A}' ==> Lower(s)[i] == s[i]
  {
  }

  /** `s.split(sep)`; never empty. */
  function Split(s: string, sep: char): (parts: seq<string>)
    ensures |parts| >= 1
    ensures forall p | p in parts :: sep !in p
  {
    if s == [] then [[]]
    else if s[0] == sep then [[]] + Split(s[1..], sep)
    else
      var rest := Split(s[1..], sep);
      [[s[0]] + rest[0]] + rest[1..]
  }

  /** `sep.join(parts)`. */
  function Join(parts: seq<string>, sep: char): string {
    if parts == [] then []
    else if |parts| == 1 then parts[0]
    else parts[0] + [sep] + Join(parts[1..], sep)
  }

  lemma SplitPrefix(head: string, rest: string, sep: char)
    requires sep !in head
    ensures Split(head + [sep] + rest, sep) == [head] + Split(rest, sep)
  {
    var s := head + [sep] + rest;
    if head == [] {
      assert s[1..] == rest;
    } else {
      SplitPrefix(head[1..], rest, sep);
      assert s[1..] == head[1..] + [sep] + rest;
      assert [head[0]] + head[1..] == head;
    }
  }

  lemma SplitWhole(s: string, sep: char)
    requires sep !in s
    ensures Split(s, sep) == [s]
  {
    if s != [] {
      SplitWhole(s[1..], sep);
      assert [s[0]] + s[1..] == s;
    }
  }

  /** Splitting undoes joining when no part holds the separator. */
  lemma {:induction false} SplitOfJoin(parts: seq<string>, sep: char)
    requires parts != [] && forall p | p in parts :: sep !in p
    ensures Split(Join(parts, sep), sep) == parts
  {
    if |parts| == 1 {
      SplitWhole(parts[0], sep);
    } else {
      SplitOfJoin(parts[1..], sep);
      SplitPrefix(parts[0], Join(parts[1..], sep), sep);
    }
  }

  lemma {:induction false} JoinOfSplit(s: string, sep: char)
    ensures Join(Split(s, sep), sep) == s
  {
    if s != [] {
      var rest := Split(s[1..], sep);
      JoinOfSplit(s[1..], sep);
      if s[0] == sep {
        assert ([[]] + rest)[1..] == rest;
        assert Join([[]] + rest, sep) == [] + [sep] + Join(rest, sep);
      } else {
        var parts := [[s[0]] + rest[0]] + rest[1..];
        assert parts[1..] == rest[1..];
        if |rest| > 1 {
          assert Join(parts, sep) == [s[0]] + (rest[0] + [sep] + Join(rest[1..], sep));
        }
      }
      assert s == [s[0]] + s[1..];
    }
  }

  /** Text after the first separator is determined by the whole text. */
  lemma {:induction false} FirstSeparator(a: string, b: string, s: string, t: string, sep: char)
    requires sep !in a && sep !in b
    requires a + [sep] + s == b + [sep] + t
    ensures a == b && s == t
  {
    var whole := a + [sep] + s;
    assert whole[|a|] == sep && whole[|b|] == sep;
    assert forall i | 0 <= i < |a| :: whole[i] == a[i];
    assert forall i | 0 <= i < |b| :: whole[i] == b[i];
    assert |a| == |b|;
    assert a == whole[..|a|] == b;
    assert s == whole[|a| + 1..] == t;
  }

  /** Text before the last separator is determined by the whole text. */
  lemma LastSeparator(s: string, t: string, a: string, b: string, sep: char)
    requires sep !in a && sep !in b
    requires s + [sep] + a == t + [sep] + b
    ensures s == t && a == b
  {
    var whole := s + [sep] + a;
    assert whole[|s|] == sep && whole[|t|] == sep;
    assert forall i | |s| < i < |whole| :: whole[i] == a[i - |s| - 1];
    assert forall i | |t| < i < |whole| :: whole[i] == b[i - |t| - 1];
    assert |s| == |t|;
    assert s == whole[..|s|] == t;
    assert a == whole[|s| + 1..] == b;
  }
}
