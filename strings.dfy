/** String helpers with the meaning of the Python built-ins the system uses. */
module Strings {

  /** Python's `sep.join(parts)`. */
  function Join(sep: string, parts: seq<string>): string
    decreases |parts|
  {
    if |parts| == 0 then ""
    else if |parts| == 1 then parts[0]
    else parts[0] + sep + Join(sep, parts[1..])
  }

  /** The position at which `parts[i]` starts inside `Join(sep, parts)`. */
  function JoinOffset(sep: string, parts: seq<string>, i: nat): nat
    requires i <= |parts|
    decreases i
  {
    if i == 0 then 0 else |parts[0]| + |sep| + JoinOffset(sep, parts[1..], i - 1)
  }

  /** `parts[i]` sits at `JoinOffset(sep, parts, i)` inside the joined string: the
      join keeps every part. */
  lemma {:induction false} JoinPartAt(sep: string, parts: seq<string>, i: nat)
    requires i < |parts|
    ensures OccursAt(Join(sep, parts), parts[i], JoinOffset(sep, parts, i))
    decreases i
  {
    var p0 := parts[0];
    OccursAtEnd([], p0);
    assert [] + p0 == p0;
    if |parts| > 1 {
      var rest := Join(sep, parts[1..]);
      assert Join(sep, parts) == p0 + sep + rest;
      if i == 0 {
        OccursAtExtend(p0, p0, 0, sep);
        OccursAtExtend(p0 + sep, p0, 0, rest);
      } else {
        JoinPartAt(sep, parts[1..], i - 1);
        assert parts[1..][i - 1] == parts[i];
        OccursAtShift(p0 + sep, rest, parts[i], JoinOffset(sep, parts[1..], i - 1));
      }
    }
  }

  /** Each part after the first starts one separator after the previous one ends. */
  lemma {:induction false} JoinOffsetNext(sep: string, parts: seq<string>, i: nat)
    requires i + 1 < |parts|
    ensures JoinOffset(sep, parts, i + 1) == JoinOffset(sep, parts, i) + |parts[i]| + |sep|
    decreases i
  {
    if i > 0 {
      JoinOffsetNext(sep, parts[1..], i - 1);
      assert parts[1..][i - 1] == parts[i];
    }
  }

  /** Between two consecutive parts the joined string holds exactly the separator. */
  lemma {:induction false} JoinSeparatorAt(sep: string, parts: seq<string>, i: nat)
    requires i + 1 < |parts|
    ensures OccursAt(Join(sep, parts), sep, JoinOffset(sep, parts, i) + |parts[i]|)
    decreases i
  {
    var p0 := parts[0];
    var rest := Join(sep, parts[1..]);
    assert Join(sep, parts) == p0 + sep + rest;
    if i == 0 {
      OccursAtEnd(p0, sep);
      OccursAtExtend(p0 + sep, sep, |p0|, rest);
    } else {
      JoinSeparatorAt(sep, parts[1..], i - 1);
      assert parts[1..][i - 1] == parts[i];
      OccursAtShift(p0 + sep, rest, sep, JoinOffset(sep, parts[1..], i - 1) + |parts[i]|);
    }
  }

  /** Concatenation of all parts, as `"".join(parts)`. */
  function Concat(parts: seq<string>): string
    decreases |parts|
  {
    if |parts| == 0 then "" else parts[0] + Concat(parts[1..])
  }

  predicate StartsWith(s: string, prefix: string) {
    |prefix| <= |s| && s[..|prefix|] == prefix
  }

  /** `t` occurs in `s` as a contiguous substring (Python's `t in s`). */
  ghost predicate Contains(s: string, t: string) {
    exists k :: OccursAt(s, t, k)
  }

  /** `t` occurs in `s` starting at position `k`. */
  predicate OccursAt(s: string, t: string, k: int) {
    0 <= k && k + |t| <= |s| && s[k..k + |t|] == t
  }

  /** The decimal digit character for `d`. */
  function DigitChar(d: nat): (c: char)
    requires d < 10
    ensures '0' <= c <= '9'
  {
    ('0' as int + d) as char
  }

  /** Python's `str(n)` for a natural number: a non-empty string of decimal digits. */
  function NatToString(n: nat): (s: string)
    ensures |s| > 0
    ensures forall k :: 0 <= k < |s| ==> '0' <= s[k] <= '9'
    decreases n
  {
    if n < 10 then [DigitChar(n)] else NatToString(n / 10) + [DigitChar(n % 10)]
  }

  /** The position of the last `sep` in `s`, or -1 when it has none. */
  function LastIndexOf(s: string, sep: char): (k: int)
    ensures -1 <= k < |s|
    ensures k >= 0 ==> s[k] == sep
    ensures forall i :: k < i < |s| ==> s[i] != sep
    decreases |s|
  {
    if |s| == 0 then -1
    else if s[|s| - 1] == sep then |s| - 1
    else LastIndexOf(s[..|s| - 1], sep)
  }

  /** Python's `s.split(sep)[-1]`: what follows the last `sep`, or all of `s` when it
      has none. */
  function LastSegment(s: string, sep: char): (r: string)
    ensures sep !in r
    ensures |r| <= |s| && r == s[|s| - |r|..]
    ensures |r| < |s| ==> s[|s| - |r| - 1] == sep
  {
    s[LastIndexOf(s, sep) + 1..]
  }

  /** Different numbers print differently. */
  lemma {:induction false} NatToStringInjective(a: nat, b: nat)
    requires NatToString(a) == NatToString(b)
    ensures a == b
    decreases a
  {
    var sa, sb := NatToString(a), NatToString(b);
    if a < 10 || b < 10 {
      // a one-digit and a longer number never print alike
      assert sa[0] == sb[0];
    } else {
      assert sa[|sa| - 1] == sb[|sb| - 1];
      assert DigitChar(a % 10) == DigitChar(b % 10);
      assert sa[..|sa| - 1] == NatToString(a / 10);
      assert sb[..|sb| - 1] == NatToString(b / 10);
      NatToStringInjective(a / 10, b / 10);
    }
  }

  /** What follows the last separator is recovered exactly when it holds no separator. */
  lemma LastSegmentAfter(s: string, sep: char, t: string)
    requires sep !in t
    ensures LastSegment(s + [sep] + t, sep) == t
  {
    var x := s + [sep] + t;
    // the separator before `t` is the last one
    assert x[|s|] == sep;
    forall i | |s| < i < |x| ensures x[i] != sep {
      assert x[i] == t[i - |s| - 1];
    }
    assert LastIndexOf(x, sep) == |s|;
    assert x[|s| + 1..] == t;
  }

  /** An occurrence survives appending text after the string. */
  lemma OccursAtExtend(s: string, t: string, k: int, u: string)
    requires OccursAt(s, t, k)
    ensures OccursAt(s + u, t, k)
  {
    assert (s + u)[k..k + |t|] == s[k..k + |t|];
  }

  /** An occurrence moves right by the length of text put in front. */
  lemma OccursAtShift(a: string, s: string, t: string, k: int)
    requires OccursAt(s, t, k)
    ensures OccursAt(a + s, t, |a| + k)
  {
    assert (a + s)[|a| + k..|a| + k + |t|] == s[k..k + |t|];
  }

  /** A string occurs at the end of anything it is appended to. */
  lemma OccursAtEnd(a: string, t: string)
    ensures OccursAt(a + t, t, |a|)
  {
    assert (a + t)[|a|..|a| + |t|] == t;
  }

  /** An occurrence that ends the string grows with what is appended. */
  lemma OccursAtGrow(s: string, t: string, k: int, u: string)
    requires OccursAt(s, t, k) && k + |t| == |s|
    ensures OccursAt(s + u, t + u, k)
  {
    assert (s + u)[k..k + |t + u|] == s[k..] + u;
  }

  /** The position of the first `x` in `s`. */
  function IndexOf(s: string, x: char): (k: nat)
    requires x in s
    ensures k < |s| && s[k] == x && x !in s[..k]
    decreases |s|
  {
    if s[0] == x then 0
    else
      assert x in s[1..];
      var k := 1 + IndexOf(s[1..], x);
      assert s[..k] == [s[0]] + s[1..][..k - 1];
      k
  }

  /** A text free of `x` followed by `x` is recovered as what comes before the first `x`. */
  lemma {:induction false} IndexOfAfterPrefix(c: string, x: char, r: string)
    requires x !in c
    ensures x in c + [x] + r && IndexOf(c + [x] + r, x) == |c|
    decreases |c|
  {
    var s := c + [x] + r;
    assert s[|c|] == x;
    if |c| > 0 {
      assert c[0] in c;
      assert s[1..] == c[1..] + [x] + r;
      IndexOfAfterPrefix(c[1..], x, r);
    }
  }
}
