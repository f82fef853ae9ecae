/**
  The part of Kibana's version string that the plugin hands to the number
  parser before comparing it with 6.4: its first one or two dot-separated
  components.
 */
module KibanaVersion {
  import opened GoStrings

  /** `p` is the longest prefix of `number` that contains at most one dot. */
  predicate IsMajorMinorPrefix(number: string, p: string) {
    && p <= number
    && multiset(p)['.'] <= 1
    && (p == number || (number[|p|] == '.' && multiset(p)['.'] == 1))
  }

  /** Split on '.', keep the first two pieces when there are several, and join them again. */
  function VersionPrefix(number: string): (p: string)
    ensures multiset(p)['.'] <= 1
    ensures '.' !in number ==> p == number
  {
    var parts := Split(number, '.');
    var keep := if |parts| > 1 then 2 else 1;
    JoinSplit(number, '.');
    Join(parts[..keep], '.')
  }

  lemma PrefixDots(a: string, b: string)
    requires a <= b
    ensures multiset(a)['.'] <= multiset(b)['.']
  {
    assert b == a + b[|a|..];
  }

  /** Joining exactly two pieces puts one separator between them. */
  lemma JoinPair(a: string, b: string, sep: char)
    ensures Join([a, b], sep) == a + [sep] + b
  {
    assert [a, b] == [a] + [b];
    JoinCons(a, [b], sep);
  }

  /** Joining the first two of several pieces, and how the whole join continues after them. */
  lemma JoinFirstTwo(parts: seq<string>, sep: char)
    requires |parts| >= 2
    ensures Join(parts[..2], sep) == parts[0] + [sep] + parts[1]
    ensures |parts| == 2 ==> Join(parts, sep) == Join(parts[..2], sep)
    ensures |parts| > 2 ==> Join(parts, sep) == Join(parts[..2], sep) + [sep] + Join(parts[2..], sep)
  {
    assert parts[..2] == [parts[0], parts[1]];
    JoinPair(parts[0], parts[1], sep);
    if |parts| > 2 {
      JoinAfterTwo(parts, sep);
    } else {
      assert parts[..2] == parts;
    }
  }

  lemma JoinAfterTwo(parts: seq<string>, sep: char)
    requires |parts| > 2
    ensures Join(parts, sep) == parts[0] + [sep] + parts[1] + [sep] + Join(parts[2..], sep)
  {
    var tail := parts[1..];
    assert [parts[0]] + tail == parts;
    JoinCons(parts[0], tail, sep);
    assert [tail[0]] + tail[1..] == tail;
    assert tail[1..] == parts[2..];
    JoinCons(tail[0], tail[1..], sep);
  }

  /** The prefix really is the longest prefix with at most one dot. */
  lemma VersionPrefixShape(number: string)
    ensures IsMajorMinorPrefix(number, VersionPrefix(number))
  {
    var parts := Split(number, '.');
    JoinSplit(number, '.');
    if |parts| > 1 {
      JoinFirstTwo(parts, '.');
    } else {
      assert parts[..1] == parts;
    }
  }

  /** Only one prefix has that shape, so the shape defines the prefix. */
  lemma MajorMinorPrefixUnique(number: string, q: string)
    requires IsMajorMinorPrefix(number, q)
    ensures q == VersionPrefix(number)
  {
    var p := VersionPrefix(number);
    VersionPrefixShape(number);
    if |q| < |p| {
      ShorterShapeHasMoreDots(number, q, p);
    } else if |p| < |q| {
      ShorterShapeHasMoreDots(number, p, q);
    }
  }

  /** Of two prefixes, a shorter one that stops at a dot and already holds a dot
      leaves the longer one with at least two dots. */
  lemma ShorterShapeHasMoreDots(number: string, a: string, b: string)
    requires IsMajorMinorPrefix(number, a)
    requires b <= number && |a| < |b|
    ensures multiset(b)['.'] >= 2
  {
    assert b[..|a| + 1] == a + ['.'];
    PrefixDots(b[..|a| + 1], b);
  }

  /** Examples: a snapshot build, a bare major version, and an empty middle component. */
  lemma VersionPrefixExamples()
    ensures VersionPrefix("8.11.0-SNAPSHOT") == "8.11"
    ensures VersionPrefix("7") == "7"
    ensures VersionPrefix("6..4") == "6."
  {
    assert IsMajorMinorPrefix("8.11.0-SNAPSHOT", "8.11");
    MajorMinorPrefixUnique("8.11.0-SNAPSHOT", "8.11");
    assert IsMajorMinorPrefix("6..4", "6.");
    MajorMinorPrefixUnique("6..4", "6.");
  }
}
