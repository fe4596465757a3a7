/**
 * Python's `str.count`, `str.split(sep)` and `sep.join(parts)` for a
 * one-character separator, and the laws that connect them. Filter tokens
 * are split on '-', filter renderings joined with ' ', paths split on '/'.
 */
module Text {

  function Count(s: string, c: char): (n: nat)
    ensures n <= |s|
    ensures n == 0 <==> c !in s
  {
    if s == [] then 0
    else (if s[0] == c then 1 else 0) + Count(s[1..], c)
  }

  /** `s.index(c)`: the position of the first occurrence. */
  function IndexOf(s: string, c: char): (i: nat)
    requires c in s
    ensures i < |s| && s[i] == c && c !in s[..i]
  {
    if s[0] == c then 0
    else
      assert c in s[1..] by { assert s == [s[0]] + s[1..]; }
      var j := IndexOf(s[1..], c);
      assert s[..j + 1] == [s[0]] + s[1..][..j];
      j + 1
  }

  /** `s.split(c)`: the maximal runs between separators; never empty. */
  function Split(s: string, c: char): (parts: seq<string>)
    ensures |parts| >= 1
    decreases |s|
  {
    if c !in s then [s]
    else
      var i := IndexOf(s, c);
      [s[..i]] + Split(s[i + 1..], c)
  }

  /** `c.join(parts)`. */
  function Join(parts: seq<string>, c: char): string {
    if |parts| == 0 then []
    else if |parts| == 1 then parts[0]
    else parts[0] + [c] + Join(parts[1..], c)
  }

  lemma {:induction false} CountAppend(a: string, b: string, c: char)
    ensures Count(a + b, c) == Count(a, c) + Count(b, c)
  {
    if a != [] {
      CountAppend(a[1..], b, c);
      assert (a + b)[1..] == a[1..] + b;
    } else {
      assert a + b == b;
    }
  }

  /** One more part than there are separators. */
  lemma {:induction false} SplitLength(s: string, c: char)
    ensures |Split(s, c)| == Count(s, c) + 1
    decreases |s|
  {
    if c in s {
      var i := IndexOf(s, c);
      SplitLength(s[i + 1..], c);
      CountAtFirst(s, c, i);
    }
  }

  /** The first separator counts once, the rest after it. */
  lemma CountAtFirst(s: string, c: char, i: nat)
    requires i < |s| && s[i] == c && c !in s[..i]
    ensures Count(s, c) == 1 + Count(s[i + 1..], c)
  {
    assert s == s[..i] + [c] + s[i + 1..];
    CountAppend(s[..i] + [c], s[i + 1..], c);
    CountAppend(s[..i], [c], c);
  }

  lemma {:induction false} JoinSplit(s: string, c: char)
    ensures Join(Split(s, c), c) == s
    decreases |s|
  {
    if c in s {
      var i := IndexOf(s, c);
      var rest := Split(s[i + 1..], c);
      JoinSplit(s[i + 1..], c);
      assert Split(s, c) == [s[..i]] + rest;
      assert ([s[..i]] + rest)[1..] == rest;
      assert s == s[..i] + [c] + s[i + 1..];
    }
  }

  lemma IndexOfJoin(a: string, b: string, c: char)
    requires c !in a
    ensures c in a + [c] + b && IndexOf(a + [c] + b, c) == |a|
  {
    var t := a + [c] + b;
    assert t[|a|] == c;
  }

  /** A separator in the middle splits the two sides independently. */
  lemma {:induction false} SplitAround(a: string, b: string, c: char)
    ensures Split(a + [c] + b, c) == Split(a, c) + Split(b, c)
    decreases |a|
  {
    if c !in a {
      SplitAfterFree(a, b, c);
    } else {
      var i := IndexOf(a, c);
      var head, tail := a[..i], a[i + 1..];
      assert a == head + [c] + tail;
      assert a + [c] + b == head + [c] + (tail + [c] + b);
      SplitAround(tail, b, c);
      SplitAfterFree(head, tail + [c] + b, c);
      SplitAfterFree(head, tail, c);
      var st, sb := Split(tail, c), Split(b, c);
      calc {
        Split(a + [c] + b, c);
        Split(head + [c] + (tail + [c] + b), c);
        [head] + Split(tail + [c] + b, c);
        [head] + (st + sb);
        { AppendAssoc([head], st, sb); }
        ([head] + st) + sb;
        Split(head + [c] + tail, c) + sb;
        Split(a, c) + sb;
      }
    }
  }

  lemma AppendAssoc<T>(x: seq<T>, y: seq<T>, z: seq<T>)
    ensures x + (y + z) == (x + y) + z
  {
  }

  /** A separator-free head becomes the first part. */
  lemma SplitAfterFree(a: string, b: string, c: char)
    requires c !in a
    ensures Split(a + [c] + b, c) == [a] + Split(b, c)
  {
    var t := a + [c] + b;
    IndexOfJoin(a, b, c);
    assert t[..|a|] == a && t[|a| + 1..] == b;
  }

  /** No part contains the separator. */
  lemma {:induction false} SplitPartsFree(s: string, c: char)
    ensures forall i :: 0 <= i < |Split(s, c)| ==> c !in Split(s, c)[i]
    decreases |s|
  {
    if c in s {
      var i := IndexOf(s, c);
      SplitPartsFree(s[i + 1..], c);
    }
  }

  lemma SplitNoSeparator(s: string, c: char)
    requires c !in s
    ensures Split(s, c) == [s]
  {
  }

  lemma {:induction false} JoinThenSplit(parts: seq<string>, c: char)
    requires |parts| >= 1
    requires forall i :: 0 <= i < |parts| ==> c !in parts[i]
    ensures Split(Join(parts, c), c) == parts
  {
    SplitNoSeparator(parts[0], c);
    if |parts| > 1 {
      var rest := parts[1..];
      assert forall i :: 0 <= i < |rest| ==> rest[i] == parts[i + 1];
      JoinThenSplit(rest, c);
      assert Join(parts, c) == parts[0] + [c] + Join(rest, c);
      SplitAround(parts[0], Join(rest, c), c);
      assert parts == [parts[0]] + rest;
    }
  }

  lemma {:induction false} JoinAppend(p: seq<string>, q: seq<string>, c: char)
    requires |p| >= 1 && |q| >= 1
    ensures Join(p + q, c) == Join(p, c) + [c] + Join(q, c)
  {
    if |p| == 1 {
      assert (p + q)[1..] == q;
    } else {
      JoinAppend(p[1..], q, c);
      assert (p + q)[1..] == p[1..] + q;
    }
  }
}
