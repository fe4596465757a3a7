/**
 * Python's `sorted` on a list of integers (visit numbers, object ids) and
 * `list.sort()` on a list of strings (file paths): the result ascends and
 * holds the same elements, duplicates included. Equal elements are
 * identical for both types, so stability makes no difference and one
 * insertion sort stands for each.
 */
module Sorting {
  import opened Values
  predicate Ascending(s: seq<int>) {
    forall i, j :: 0 <= i < j < |s| ==> s[i] <= s[j]
  }

  /** `x` placed before the first element that is not smaller. */
  function Insert(x: int, s: seq<int>): (r: seq<int>)
    requires Ascending(s)
    ensures Ascending(r) && multiset(r) == multiset(s) + multiset{x}
    ensures |r| == |s| + 1
  {
    if s == [] then [x]
    else if x <= s[0] then [x] + s
    else
      var rest := Insert(x, s[1..]);
      InsertBehind(x, s, rest);
      [s[0]] + rest
  }

  /** Putting the head of `s` back in front of `x` inserted into the rest of `s`. */
  lemma InsertBehind(x: int, s: seq<int>, rest: seq<int>)
    requires Ascending(s) && s != [] && s[0] < x
    requires Ascending(rest) && multiset(rest) == multiset(s[1..]) + multiset{x}
    ensures Ascending([s[0]] + rest) && multiset([s[0]] + rest) == multiset(s) + multiset{x}
  {
    assert s == [s[0]] + s[1..];
    assert multiset(s[1..] + [x]) == multiset(s[1..]) + multiset{x};
    LowerBound(s[1..] + [x], rest, s[0]);
  }

  /** A bound below every element of `s` is below every element of a permutation of `s`. */
  lemma LowerBound(s: seq<int>, r: seq<int>, b: int)
    requires multiset(r) == multiset(s) && forall k :: 0 <= k < |s| ==> b <= s[k]
    ensures forall k :: 0 <= k < |r| ==> b <= r[k]
  {
    forall k | 0 <= k < |r|
      ensures b <= r[k]
    {
      assert r[k] in multiset(r);
      var j :| 0 <= j < |s| && s[j] == r[k];
    }
  }

  /** `sorted(s)`. */
  function Sort(s: seq<int>): (r: seq<int>)
    ensures Ascending(r) && multiset(r) == multiset(s) && |r| == |s|
  {
    if s == [] then []
    else
      assert s == [s[0]] + s[1..];
      Insert(s[0], Sort(s[1..]))
  }

  /** The head of an ascending list is its least element. */
  lemma HeadLeast(s: seq<int>, x: int)
    requires Ascending(s) && x in multiset(s)
    ensures s[0] <= x
  {
    var i :| 0 <= i < |s| && s[i] == x;
    assert i == 0 || s[0] <= s[i];
  }

  /** Two ascending lists with the same elements are the same list, so `Sort` is the only possible answer. */
  lemma {:induction false} AscendingUnique(a: seq<int>, b: seq<int>)
    requires Ascending(a) && Ascending(b) && multiset(a) == multiset(b)
    ensures a == b
    decreases |a|
  {
    assert |b| == |multiset(b)| == |multiset(a)| == |a|;
    if a != [] {
      assert a[0] in multiset(a) && b[0] in multiset(b);
      HeadLeast(a, b[0]);
      HeadLeast(b, a[0]);
      TailsAgree(a, b);
      AscendingUnique(a[1..], b[1..]);
      assert a == [a[0]] + a[1..] && b == [b[0]] + b[1..];
    }
  }

  /** Lists with the same elements and the same head have tails with the same elements; ascending lists have ascending tails. */
  lemma TailsAgree(a: seq<int>, b: seq<int>)
    requires a != [] && b != [] && a[0] == b[0] && multiset(a) == multiset(b)
    requires Ascending(a) && Ascending(b)
    ensures multiset(a[1..]) == multiset(b[1..]) && Ascending(a[1..]) && Ascending(b[1..])
  {
    assert a == [a[0]] + a[1..] && b == [b[0]] + b[1..];
    assert multiset(a) == multiset{a[0]} + multiset(a[1..]);
    assert multiset(b) == multiset{b[0]} + multiset(b[1..]);
    assert multiset(a[1..]) == multiset(a) - multiset{a[0]} == multiset(b) - multiset{b[0]} == multiset(b[1..]);
    AscendingTail(a);
    AscendingTail(b);
  }

  lemma AscendingTail(s: seq<int>)
    requires s != [] && Ascending(s)
    ensures Ascending(s[1..])
  {
    forall i, j | 0 <= i < j < |s[1..]|
      ensures s[1..][i] <= s[1..][j]
    {
      assert s[1..][i] == s[i + 1] && s[1..][j] == s[j + 1];
    }
  }

  // ---------------------------------------------------------------------
  // Strings, under Python's code-point order

  /** Python's `<=` on strings is a total order. */
  lemma {:induction false} StrTotal(a: string, b: string)
    ensures StrLessEq(a, b) || StrLessEq(b, a)
    decreases |a|
  {
    if a != [] && b != [] && a[0] == b[0] {
      StrTotal(a[1..], b[1..]);
    }
  }

  lemma {:induction false} StrTransitive(a: string, b: string, c: string)
    requires StrLessEq(a, b) && StrLessEq(b, c)
    ensures StrLessEq(a, c)
    decreases |a|
  {
    if a != [] && a[0] == b[0] && b[0] == c[0] {
      StrTransitive(a[1..], b[1..], c[1..]);
    }
  }

  lemma {:induction false} StrAntisymmetric(a: string, b: string)
    requires StrLessEq(a, b) && StrLessEq(b, a)
    ensures a == b
    decreases |a|
  {
    if a != [] {
      StrAntisymmetric(a[1..], b[1..]);
      assert a == [a[0]] + a[1..] && b == [b[0]] + b[1..];
    }
  }

  predicate StrAscending(s: seq<string>) {
    forall i, j :: 0 <= i < j < |s| ==> StrLessEq(s[i], s[j])
  }

  /** `x` placed before the first string it does not exceed. */
  function InsertStr(x: string, s: seq<string>): (r: seq<string>)
    requires StrAscending(s)
    ensures StrAscending(r) && multiset(r) == multiset(s) + multiset{x}
    ensures |r| == |s| + 1
  {
    if s == [] then [x]
    else if StrLessEq(x, s[0]) then
      StrInsertFront(x, s);
      [x] + s
    else
      var rest := InsertStr(x, s[1..]);
      StrInsertBehind(x, s, rest);
      [s[0]] + rest
  }

  lemma StrInsertFront(x: string, s: seq<string>)
    requires StrAscending(s) && s != [] && StrLessEq(x, s[0])
    ensures StrAscending([x] + s)
  {
    assert forall j :: 0 <= j < |s| ==> StrLessEq(x, s[j]) by {
      forall j | 0 <= j < |s|
        ensures StrLessEq(x, s[j])
      {
        if j > 0 {
          StrTransitive(x, s[0], s[j]);
        }
      }
    }
  }

  lemma StrInsertBehind(x: string, s: seq<string>, rest: seq<string>)
    requires StrAscending(s) && s != [] && !StrLessEq(x, s[0])
    requires StrAscending(rest) && multiset(rest) == multiset(s[1..]) + multiset{x}
    ensures StrAscending([s[0]] + rest) && multiset([s[0]] + rest) == multiset(s) + multiset{x}
  {
    assert s == [s[0]] + s[1..];
    assert forall k :: 0 <= k < |rest| ==> StrLessEq(s[0], rest[k]) by {
      forall k | 0 <= k < |rest|
        ensures StrLessEq(s[0], rest[k])
      {
        assert rest[k] in multiset(rest);
        if rest[k] in multiset(s[1..]) {
          var j :| 1 <= j < |s| && s[j] == rest[k] by {
            assert rest[k] in s[1..];
          }
        } else {
          assert rest[k] == x;
          StrTotal(x, s[0]);
        }
      }
    }
  }

  /** `files.sort()`. */
  function SortStrings(s: seq<string>): (r: seq<string>)
    ensures StrAscending(r) && multiset(r) == multiset(s) && |r| == |s|
  {
    if s == [] then []
    else
      assert s == [s[0]] + s[1..];
      InsertStr(s[0], SortStrings(s[1..]))
  }
}

/** `sorted()` on the keys of a dictionary of visits. */
module SortedKeys {
  predicate StrictlyAscending(s: seq<int>) {
    forall i, j :: 0 <= i < j < |s| ==> s[i] < s[j]
  }

  lemma {:induction false} LeastExists(s: set<int>, y: int)
    requires y in s
    ensures exists m :: m in s && forall x :: x in s ==> m <= x
    decreases |s|
  {
    var rest := s - {y};
    if exists z :: z in rest {
      var z :| z in rest;
      LeastExists(rest, z);
      var m :| m in rest && forall x :: x in rest ==> m <= x;
      var least := if y < m then y else m;
      forall x | x in s
        ensures least <= x
      {
        if x != y {
          assert x in rest;
        }
      }
    } else {
      assert forall x :: x in s ==> x == y;
    }
  }

  /** The smallest element of a non-empty set. */
  function Least(s: set<int>): (m: int)
    requires exists y :: y in s
    ensures m in s && forall x :: x in s ==> m <= x
  {
    var y :| y in s;
    LeastExists(s, y);
    var m :| m in s && forall x :: x in s ==> m <= x;
    m
  }

  /** `sorted(keys)`: the elements of a set, each once, in ascending order. */
  function Ascend(s: set<int>): (r: seq<int>)
    ensures StrictlyAscending(r) && |r| == |s|
    ensures forall k :: 0 <= k < |r| ==> r[k] in s
    decreases |s|
  {
    if !exists y :: y in s then
      assert s == {};
      []
    else
      var m := Least(s);
      var rest := Ascend(s - {m});
      [m] + rest
  }

  /** Every element of the set is listed. */
  lemma {:induction false} AscendHas(s: set<int>, v: int)
    requires v in s
    ensures v in Ascend(s)
    decreases |s|
  {
    var m := Least(s);
    if v != m {
      AscendHas(s - {m}, v);
    }
  }
}
