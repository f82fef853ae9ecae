/**
  The three functions of Go's `strings` package the Kibana plugin relies on:
  `strings.ToLower`, `strings.Split` and `strings.Join`, over strings seen as
  sequences of runes.
 */
module GoStrings {

  /** Go's `unicode.ToLower` on the runes whose lower case is ASCII: the letters
      A-Z, LATIN CAPITAL LETTER I WITH DOT ABOVE (lower case 'i') and KELVIN SIGN
      (lower case 'k'). Every other rune is kept; its Go lower case is not ASCII
      either, so no comparison against an ASCII word can tell the difference. */
  function LowerChar(c: char): char {
    if 'A' <= c <= 'Z' then (c as int + 32) as char
    else if c == '\U{0130}' then 'i'
    else if c == '\U{212A}' then 'k'
    else c
  }

  /** ASCII upper-casing, used only to state that lower-casing forgets case. */
  function UpperChar(c: char): char {
    if 'a' <= c <= 'z' then (c as int - 32) as char else c
  }

  /** `strings.ToLower`: lower-cases rune by rune and keeps the length. */
  function Lower(s: string): (r: string)
    ensures |r| == |s|
  {
    if s == [] then [] else [LowerChar(s[0])] + Lower(s[1..])
  }

  /** Each rune of the lower-cased string is the lower case of the rune at the same place. */
  lemma {:induction false} LowerAt(s: string, i: int)
    requires 0 <= i < |s|
    ensures Lower(s)[i] == LowerChar(s[i])
    decreases i
  {
    if i > 0 {
      LowerAt(s[1..], i - 1);
    }
  }

  function Upper(s: string): (r: string)
    ensures |r| == |s|
    ensures forall i :: 0 <= i < |s| ==> r[i] == UpperChar(s[i])
  {
    if s == [] then [] else [UpperChar(s[0])] + Upper(s[1..])
  }

  /** A word made of the lower-case ASCII letters only. */
  predicate IsLowerWord(t: string) {
    forall i :: 0 <= i < |t| ==> 'a' <= t[i] <= 'z'
  }

  /** Rune `d` is one of the ways to write the lower-case letter `c`. */
  predicate Spells(d: char, c: char) {
    || d == c
    || d as int == c as int - 32
    || (c == 'i' && d == '\U{0130}')
    || (c == 'k' && d == '\U{212A}')
  }

  /** `s` is `t` written in some mixture of letter cases. */
  predicate SpelledAs(s: string, t: string) {
    |s| == |t| && forall i :: 0 <= i < |s| ==> Spells(s[i], t[i])
  }

  lemma LowerCharPreimage(d: char, c: char)
    requires 'a' <= c <= 'z'
    ensures LowerChar(d) == c <==> Spells(d, c)
  {
  }

  /** Lower-casing equals a lower-case word exactly when the string is that word
      in some mixture of cases: the case-insensitive match the plugin relies on. */
  lemma LowerMatches(s: string, t: string)
    requires IsLowerWord(t)
    ensures Lower(s) == t <==> SpelledAs(s, t)
  {
    if Lower(s) == t {
      forall i | 0 <= i < |s|
        ensures Spells(s[i], t[i])
      {
        LowerAt(s, i);
        LowerCharPreimage(s[i], t[i]);
      }
    }
    if SpelledAs(s, t) {
      forall i | 0 <= i < |s|
        ensures Lower(s)[i] == t[i]
      {
        LowerAt(s, i);
        LowerCharPreimage(s[i], t[i]);
      }
    }
  }

  /** Lower-casing forgets whatever case the ASCII letters were written in. */
  lemma {:induction false} LowerForgetsCase(s: string)
    ensures Lower(Upper(s)) == Lower(s)
    ensures Lower(Lower(s)) == Lower(s)
  {
    forall i | 0 <= i < |s|
      ensures Lower(Upper(s))[i] == Lower(s)[i] && Lower(Lower(s))[i] == Lower(s)[i]
    {
      LowerAt(s, i);
      LowerAt(Upper(s), i);
      LowerAt(Lower(s), i);
    }
  }

  /** `strings.Split(s, sep)` for a one-rune separator: the pieces between the
      separators, one more piece than there are separators, so "" gives [""]. */
  function Split(s: string, sep: char): (parts: seq<string>)
    ensures |parts| == multiset(s)[sep] + 1
    ensures forall i :: 0 <= i < |parts| ==> sep !in parts[i]
    decreases |s|
  {
    if s == [] then [[]]
    else
      assert s == [s[0]] + s[1..];
      var rest := Split(s[1..], sep);
      if s[0] == sep then [[]] + rest
      else [[s[0]] + rest[0]] + rest[1..]
  }

  /** `strings.Join(parts, [sep])`: the parts with one separator between neighbours. */
  function Join(parts: seq<string>, sep: char): (s: string)
    ensures (forall i :: 0 <= i < |parts| ==> sep !in parts[i]) ==>
              multiset(s)[sep] == if |parts| == 0 then 0 else |parts| - 1
  {
    if |parts| == 0 then []
    else if |parts| == 1 then parts[0]
    else parts[0] + [sep] + Join(parts[1..], sep)
  }

  /** Prepending a piece to a non-empty list of pieces adds it and one separator. */
  lemma JoinCons(a: string, ps: seq<string>, sep: char)
    requires |ps| >= 1
    ensures Join([a] + ps, sep) == a + [sep] + Join(ps, sep)
  {
    assert ([a] + ps)[1..] == ps;
  }

  /** Extending the first piece by one rune extends the join by that rune. */
  lemma JoinExtendFirst(c: char, ps: seq<string>, sep: char)
    requires |ps| >= 1
    ensures Join([[c] + ps[0]] + ps[1..], sep) == [c] + Join(ps, sep)
  {
    if |ps| > 1 {
      JoinCons([c] + ps[0], ps[1..], sep);
      JoinCons(ps[0], ps[1..], sep);
      assert [ps[0]] + ps[1..] == ps;
    }
  }

  /** Joining the pieces of a split gives back the string. */
  lemma {:induction false} JoinSplit(s: string, sep: char)
    ensures Join(Split(s, sep), sep) == s
    decreases |s|
  {
    if s != [] {
      var rest := Split(s[1..], sep);
      JoinSplit(s[1..], sep);
      assert s == [s[0]] + s[1..];
      if s[0] == sep {
        JoinCons([], rest, sep);
      } else {
        JoinExtendFirst(s[0], rest, sep);
      }
    }
  }

  lemma {:induction false} SplitWithoutSep(a: string, sep: char)
    requires sep !in a
    ensures Split(a, sep) == [a]
  {
    assert multiset(a)[sep] == 0;
    var parts := Split(a, sep);
    JoinSplit(a, sep);
  }

  lemma {:induction false} SplitAfterPiece(a: string, b: string, sep: char)
    requires sep !in a
    ensures Split(a + [sep] + b, sep) == [a] + Split(b, sep)
    decreases |a|
  {
    var s := a + [sep] + b;
    if a == [] {
      assert s[0] == sep && s[1..] == b;
    } else {
      assert s[1..] == a[1..] + [sep] + b;
      SplitAfterPiece(a[1..], b, sep);
      assert a == [a[0]] + a[1..];
    }
  }

  /** Splitting a join of separator-free pieces gives back the pieces. */
  lemma {:induction false} SplitJoin(parts: seq<string>, sep: char)
    requires |parts| >= 1
    requires forall i :: 0 <= i < |parts| ==> sep !in parts[i]
    ensures Split(Join(parts, sep), sep) == parts
    decreases |parts|
  {
    if |parts| == 1 {
      SplitWithoutSep(parts[0], sep);
    } else {
      SplitJoin(parts[1..], sep);
      SplitAfterPiece(parts[0], Join(parts[1..], sep), sep);
      assert [parts[0]] + parts[1..] == parts;
    }
  }
}
