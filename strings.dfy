/** Python's str.split(sep) and sep.join(...) for a one-character separator. */
module Strings {

  /** The number of occurrences of c in s. */
  function Count(s: string, c: char): (n: nat)
    ensures n <= |s|
    ensures n == 0 <==> c !in s
  {
    if |s| == 0 then 0 else (if s[0] == c then 1 else 0) + Count(s[1..], c)
  }

  /** sep.join(segments): the segments with one sep between neighbours. */
  function Join(segments: seq<string>, sep: char): string
  {
    if |segments| == 0 then ""
    else if |segments| == 1 then segments[0]
    else segments[0] + [sep] + Join(segments[1..], sep)
  }

  /** s.split(sep): the maximal sep-free pieces between separators; never empty,
      and one more piece than there are separators. */
  function Split(s: string, sep: char): (segments: seq<string>)
    ensures |segments| == Count(s, sep) + 1
    ensures forall i :: 0 <= i < |segments| ==> sep !in segments[i]
  {
    if |s| == 0 then [""]
    else
      var rest := Split(s[1..], sep);
      if s[0] == sep then [""] + rest
      else [[s[0]] + rest[0]] + rest[1..]
  }

  /** Joining what Split produced gives back the string. */
  lemma {:induction false} JoinSplit(s: string, sep: char)
    ensures Join(Split(s, sep), sep) == s
  {
    if |s| > 0 {
      var rest := Split(s[1..], sep);
      JoinSplit(s[1..], sep);
      if s[0] == sep {
        assert Split(s, sep) == [""] + rest;
        assert ([""] + rest)[1..] == rest;
      } else {
        var segments := [[s[0]] + rest[0]] + rest[1..];
        assert Split(s, sep) == segments;
        if |rest| == 1 {
          assert Join(segments, sep) == [s[0]] + Join(rest, sep);
        } else {
          assert segments[1..] == rest[1..];
          assert Join(rest, sep) == rest[0] + [sep] + Join(rest[1..], sep);
          assert Join(segments, sep) == [s[0]] + Join(rest, sep);
        }
        assert [s[0]] + s[1..] == s;
      }
    }
  }

  /** A sep-free string does not split. */
  lemma {:induction false} SplitPlain(a: string, sep: char)
    requires sep !in a
    ensures Split(a, sep) == [a]
  {
    if |a| > 0 {
      SplitPlain(a[1..], sep);
      assert [a[0]] + a[1..] == a;
    }
  }

  /** A sep-free prefix followed by sep splits off as the first piece. */
  lemma {:induction false} SplitAfter(a: string, sep: char, t: string)
    requires sep !in a
    ensures Split(a + [sep] + t, sep) == [a] + Split(t, sep)
  {
    var s := a + [sep] + t;
    if |a| == 0 {
      assert s[0] == sep && s[1..] == t;
    } else {
      assert s[0] == a[0];
      assert s[1..] == a[1..] + [sep] + t;
      SplitAfter(a[1..], sep, t);
      assert [a[0]] + a[1..] == a;
    }
  }

  /** Splitting a join of sep-free pieces gives back the pieces. */
  lemma {:induction false} SplitJoin(segments: seq<string>, sep: char)
    requires |segments| >= 1
    requires forall i :: 0 <= i < |segments| ==> sep !in segments[i]
    ensures Split(Join(segments, sep), sep) == segments
  {
    if |segments| == 1 {
      SplitPlain(segments[0], sep);
    } else {
      SplitJoin(segments[1..], sep);
      SplitAfter(segments[0], sep, Join(segments[1..], sep));
      assert [segments[0]] + segments[1..] == segments;
    }
  }

  /** What follows the last leading piece of a join: nothing, or sep and the rest. */
  function JoinTail(more: seq<string>, sep: char): string
  {
    if |more| == 0 then "" else [sep] + Join(more, sep)
  }

  /** A join is its first piece followed by the join's tail. */
  lemma JoinFirst(segments: seq<string>, sep: char)
    requires |segments| >= 1
    ensures Join(segments, sep) == segments[0] + JoinTail(segments[1..], sep)
  {
  }

  /** Joining three leading pieces and then the remaining ones. */
  lemma JoinThree(segments: seq<string>, sep: char)
    requires |segments| >= 3
    ensures Join(segments, sep) == segments[0] + [sep] + segments[1] + [sep] + segments[2] + JoinTail(segments[3..], sep)
  {
    var tail := JoinTail(segments[3..], sep);
    var j2 := Join(segments[2..], sep);
    assert j2 == segments[2] + tail by {
      JoinFirst(segments[2..], sep);
      assert segments[2..][1..] == segments[3..];
    }
    var j1 := Join(segments[1..], sep);
    assert j1 == segments[1] + [sep] + j2 by {
      assert segments[1..][1..] == segments[2..];
    }
    assert Join(segments, sep) == segments[0] + [sep] + j1;
    calc {
      segments[0] + [sep] + j1;
      segments[0] + [sep] + (segments[1] + [sep] + (segments[2] + tail));
      segments[0] + [sep] + segments[1] + [sep] + segments[2] + tail;
    }
  }

  /** The three parts of a concatenation can be sliced back out. */
  lemma SliceParts(x: string, prefix: string, middle: string, suffix: string)
    requires x == prefix + middle + suffix
    ensures |prefix| <= |x| - |suffix|
    ensures x[..|prefix|] == prefix
    ensures x[|prefix|..|x| - |suffix|] == middle
    ensures x[|x| - |suffix|..] == suffix
  {
  }
}
