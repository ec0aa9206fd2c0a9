/** Python's `sep.join(parts)` and `s.split(c)` for a one-character
    separator, over `string` (a `seq<char>`). */
module Text {

  /** `sep.join(parts)`: the parts with `sep` between neighbours. */
  function Join(sep: string, parts: seq<string>): (r: string)
    ensures |parts| == 0 ==> r == ""
    ensures |parts| > 0 ==> |r| == TotalLength(parts) + (|parts| - 1) * |sep|
  {
    if |parts| == 0 then ""
    else if |parts| == 1 then parts[0]
    else parts[0] + sep + Join(sep, parts[1..])
  }

  /** Sum of the lengths of the parts. */
  function TotalLength(parts: seq<string>): nat
  {
    if |parts| == 0 then 0 else |parts[0]| + TotalLength(parts[1..])
  }

  /** Number of occurrences of `c` in `s`. */
  function Count(s: string, c: char): nat
  {
    if |s| == 0 then 0 else (if s[0] == c then 1 else 0) + Count(s[1..], c)
  }

  /** `s.split(c)`: the maximal runs between occurrences of `c`, one more
      field than there are separators. */
  function Split(s: string, c: char): (r: seq<string>)
    ensures |r| == Count(s, c) + 1
  {
    if |s| == 0 then [""]
    else
      var rest := Split(s[1..], c);
      if s[0] == c then [""] + rest
      else [[s[0]] + rest[0]] + rest[1..]
  }

  /** No field of a split holds the separator. */
  lemma {:induction false} SplitFieldsFree(s: string, c: char)
    ensures forall i :: 0 <= i < |Split(s, c)| ==> c !in Split(s, c)[i]
  {
    if |s| > 0 {
      SplitFieldsFree(s[1..], c);
    }
  }

  lemma CountPositive(s: string, c: char)
    ensures c in s <==> Count(s, c) > 0
  {
    if |s| > 0 {
      assert s == [s[0]] + s[1..];
      CountPositive(s[1..], c);
    }
  }

  /** A string holding the separator splits into at least two fields. */
  lemma SplitHasTwoFields(s: string, c: char)
    requires c in s
    ensures |Split(s, c)| >= 2
  {
    CountPositive(s, c);
  }

  /** Field 0 of a split is a prefix of the string. */
  lemma {:induction false} SplitFirstPrefix(s: string, c: char)
    ensures Split(s, c)[0] <= s
  {
    if |s| > 0 && s[0] != c {
      SplitFirstPrefix(s[1..], c);
      assert s == [s[0]] + s[1..];
    }
  }

  /** Field 0 of a split ends at the end of the string or at a separator. */
  lemma {:induction false} SplitFirstEnd(s: string, c: char)
    ensures |Split(s, c)[0]| < |s| ==> s[|Split(s, c)[0]|] == c
  {
    if |s| > 0 && s[0] != c {
      SplitFirstEnd(s[1..], c);
    }
  }

  /** For a string holding the separator, field 0, the separator and
      field 1 in turn are a prefix of the string. */
  lemma {:induction false} SplitFirstTwo(s: string, c: char)
    requires c in s
    ensures |Split(s, c)| >= 2 && Split(s, c)[0] + [c] + Split(s, c)[1] <= s
  {
    SplitHasTwoFields(s, c);
    assert s == [s[0]] + s[1..];
    if s[0] == c {
      SplitFirstPrefix(s[1..], c);
    } else {
      assert c in s[1..];
      SplitFirstTwo(s[1..], c);
    }
  }

  /** Joining the first part onto a non-empty rest. */
  lemma JoinCons(sep: string, a: string, rest: seq<string>)
    requires |rest| > 0
    ensures Join(sep, [a] + rest) == a + sep + Join(sep, rest)
  {
    assert ([a] + rest)[1..] == rest;
  }

  /** Splitting and joining again gives back the string. */
  lemma {:induction false} JoinSplit(s: string, c: char)
    ensures Join([c], Split(s, c)) == s
  {
    if |s| > 0 {
      var rest := Split(s[1..], c);
      JoinSplit(s[1..], c);
      if s[0] == c {
        JoinCons([c], "", rest);
      } else if |rest| == 1 {
        assert Split(s, c) == [[s[0]] + rest[0]];
      } else {
        JoinCons([c], [s[0]] + rest[0], rest[1..]);
        assert [rest[0]] + rest[1..] == rest;
        JoinCons([c], rest[0], rest[1..]);
      }
    }
  }

  /** A string free of the separator is a single field. */
  lemma {:induction false} SplitNoSeparator(s: string, c: char)
    requires c !in s
    ensures Split(s, c) == [s]
  {
    if |s| > 0 {
      SplitNoSeparator(s[1..], c);
      assert [s[0]] + s[1..] == s;
    }
  }

  /** A separator-free field followed by the separator splits off first. */
  lemma {:induction false} SplitAfterField(a: string, c: char, t: string)
    requires c !in a
    ensures Split(a + [c] + t, c) == [a] + Split(t, c)
  {
    if |a| == 0 {
      assert a + [c] + t == [c] + t;
      assert ([c] + t)[1..] == t;
    } else {
      SplitAfterField(a[1..], c, t);
      var s := a + [c] + t;
      assert s[0] == a[0] && s[1..] == a[1..] + [c] + t;
      assert [a[0]] + a[1..] == a;
    }
  }

  /** Joining separator-free parts and splitting again gives back the parts. */
  lemma {:induction false} SplitJoin(parts: seq<string>, c: char)
    requires |parts| > 0
    requires forall i :: 0 <= i < |parts| ==> c !in parts[i]
    ensures Split(Join([c], parts), c) == parts
  {
    if |parts| == 1 {
      SplitNoSeparator(parts[0], c);
    } else {
      SplitJoin(parts[1..], c);
      SplitAfterField(parts[0], c, Join([c], parts[1..]));
      assert [parts[0]] + parts[1..] == parts;
    }
  }
}
