/** Quantity names: a name holding the separator '_' denotes a ratio, and is
    taken apart the way Python's str.split does it. */
module Names {

  const Separator: char := '_'

  /** Python's s.split(sep): the maximal separator-free runs, empty ones included. */
  function Split(s: string, sep: char): (parts: seq<string>)
    ensures |parts| >= 1
  {
    if |s| == 0 then [""]
    else
      var rest := Split(s[1..], sep);
      if s[0] == sep then [""] + rest
      else [[s[0]] + rest[0]] + rest[1..]
  }

  /** sep.join(parts), the inverse of Split. */
  function Join(parts: seq<string>, sep: char): string
    requires |parts| >= 1
  {
    if |parts| == 1 then parts[0]
    else parts[0] + [sep] + Join(parts[1..], sep)
  }

  /** Joining the parts again gives back the name. */
  lemma {:induction false} JoinSplit(s: string, sep: char)
    ensures Join(Split(s, sep), sep) == s
  {
    if |s| > 0 {
      var rest := Split(s[1..], sep);
      JoinSplit(s[1..], sep);
      if s[0] != sep {
        if |rest| == 1 {
          assert Join(Split(s, sep), sep) == [s[0]] + rest[0];
        } else {
          assert Split(s, sep)[1..] == rest[1..];
          assert Join(rest, sep) == rest[0] + [sep] + Join(rest[1..], sep);
        }
      }
    }
  }

  /** No part contains the separator. */
  lemma {:induction false} SplitPartsHaveNoSeparator(s: string, sep: char)
    ensures forall k :: 0 <= k < |Split(s, sep)| ==> sep !in Split(s, sep)[k]
  {
    if |s| > 0 {
      SplitPartsHaveNoSeparator(s[1..], sep);
    }
  }

  /** A name splits into one part exactly when it holds no separator. */
  lemma {:induction false} SplitSingleIff(s: string, sep: char)
    ensures |Split(s, sep)| == 1 <==> sep !in s
  {
    if |s| > 0 {
      SplitSingleIff(s[1..], sep);
      assert s == [s[0]] + s[1..];
    }
  }

  /** Splitting a separator-free name in front of more text extends its first part. */
  lemma {:induction false} SplitPrefix(a: string, s: string, sep: char)
    requires sep !in a
    ensures Split(a + s, sep) == [a + Split(s, sep)[0]] + Split(s, sep)[1..]
  {
    if |a| == 0 {
      assert a + s == s && a + Split(s, sep)[0] == Split(s, sep)[0];
    } else {
      SplitPrefix(a[1..], s, sep);
      assert (a + s)[1..] == a[1..] + s;
      assert [a[0]] + (a[1..] + Split(s, sep)[0]) == a + Split(s, sep)[0];
    }
  }

  /** Splitting undoes joining separator-free parts. */
  lemma {:induction false} SplitJoin(parts: seq<string>, sep: char)
    requires |parts| >= 1
    requires forall k :: 0 <= k < |parts| ==> sep !in parts[k]
    ensures Split(Join(parts, sep), sep) == parts
  {
    if |parts| == 1 {
      SplitPrefix(parts[0], "", sep);
      assert parts[0] + "" == parts[0];
    } else {
      var tail := Join(parts[1..], sep);
      SplitJoin(parts[1..], sep);
      SplitPrefix(parts[0], [sep] + tail, sep);
      assert parts[0] + [sep] + tail == parts[0] + ([sep] + tail);
      assert ([sep] + tail)[1..] == tail;
      assert parts[0] + "" == parts[0];
    }
  }

  /** The ratio name "A_B" of two separator-free names splits into [A, B]. */
  lemma RatioName(a: string, b: string)
    requires Separator !in a && Separator !in b
    ensures Separator in a + [Separator] + b
    ensures Split(a + [Separator] + b, Separator) == [a, b]
  {
    assert (a + [Separator] + b)[|a|] == Separator;
    assert Join([a, b], Separator) == a + [Separator] + b;
    SplitJoin([a, b], Separator);
  }
}
