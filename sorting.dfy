/**
 * The two orderings the repository applies in memory: posts by a timestamp,
 * newest first (a comparator `b - a`), and tag names ascending with
 * duplicates removed (`[...new Set(tags)].sort()`).
 */
module Sorting {
  import Text

  /** Non-increasing by `key`. */
  ghost predicate SortedDesc<T>(s: seq<T>, key: T -> int)
  {
    forall i, j :: 0 <= i < j < |s| ==> key(s[i]) >= key(s[j])
  }

  /** Puts `x` before the first element whose key is not larger, so equal keys keep their order. */
  function InsertDesc<T>(x: T, s: seq<T>, key: T -> int): (r: seq<T>)
    requires SortedDesc(s, key)
    ensures SortedDesc(r, key)
    ensures multiset(r) == multiset(s) + multiset{x}
    ensures |r| == |s| + 1
  {
    if s == [] || key(s[0]) <= key(x) then [x] + s
    else
      var rest := InsertDesc(x, s[1..], key);
      InsertStep(x, s, rest, key);
      [s[0]] + rest
  }

  /** The recursive case of `InsertDesc`: the head of `s` stays in front. */
  lemma InsertStep<T>(x: T, s: seq<T>, rest: seq<T>, key: T -> int)
    requires SortedDesc(s, key) && s != [] && key(x) < key(s[0])
    requires SortedDesc(rest, key) && multiset(rest) == multiset(s[1..]) + multiset{x}
    ensures SortedDesc([s[0]] + rest, key)
    ensures multiset([s[0]] + rest) == multiset(s) + multiset{x}
  {
    assert s == [s[0]] + s[1..];
    var b := [x] + s[1..];
    forall j | 0 <= j < |b| ensures key(b[j]) <= key(s[0]) {
      if j > 0 {
        assert b[j] == s[j];
      }
    }
    KeysAtMost(rest, b, key, key(s[0]));
    ConsSorted(s[0], rest, key);
  }

  /** A permutation of keys bounded by `m` is bounded by `m`. */
  lemma KeysAtMost<T>(a: seq<T>, b: seq<T>, key: T -> int, m: int)
    requires multiset(a) == multiset(b)
    requires forall j :: 0 <= j < |b| ==> key(b[j]) <= m
    ensures forall j :: 0 <= j < |a| ==> key(a[j]) <= m
  {
    forall j | 0 <= j < |a| ensures key(a[j]) <= m {
      assert a[j] in multiset(b);
      var k :| 0 <= k < |b| && b[k] == a[j];
    }
  }

  /** An element with the largest key can head a sorted sequence. */
  lemma ConsSorted<T>(h: T, s: seq<T>, key: T -> int)
    requires SortedDesc(s, key)
    requires forall j :: 0 <= j < |s| ==> key(s[j]) <= key(h)
    ensures SortedDesc([h] + s, key)
  {
    var r := [h] + s;
    forall i, j | 0 <= i < j < |r| ensures key(r[i]) >= key(r[j]) {
      assert r[j] == s[j - 1];
      if i > 0 {
        assert r[i] == s[i - 1];
      }
    }
  }

  /**
   * The stable sort `posts.sort((a, b) => key(b) - key(a))`: newest first, and
   * a permutation of its input.
   */
  function SortDesc<T>(s: seq<T>, key: T -> int): (r: seq<T>)
    ensures SortedDesc(r, key)
    ensures multiset(r) == multiset(s)
    ensures |r| == |s|
  {
    if s == [] then []
    else
      assert s == [s[0]] + s[1..];
      InsertDesc(s[0], SortDesc(s[1..], key), key)
  }

  /** The first element of a sorted permutation has the largest key of the input. */
  lemma SortDescHeadIsMax<T>(s: seq<T>, key: T -> int)
    requires s != []
    ensures SortDesc(s, key) != []
    ensures forall x :: x in s ==> key(SortDesc(s, key)[0]) >= key(x)
  {
    var r := SortDesc(s, key);
    forall x | x in s ensures key(r[0]) >= key(x) {
      assert x in multiset(r);
      var j :| 0 <= j < |r| && r[j] == x;
    }
  }

  /** Ascending in the default string order, hence without duplicates. */
  ghost predicate StrictlyAscending(s: seq<string>)
  {
    forall i, j :: 0 <= i < j < |s| ==> Text.Less(s[i], s[j])
  }

  lemma StrictlyAscendingHasNoDuplicates(s: seq<string>)
    requires StrictlyAscending(s)
    ensures forall i, j :: 0 <= i < j < |s| ==> s[i] != s[j]
  {
    forall i, j | 0 <= i < j < |s| ensures s[i] != s[j] {
      Text.LessIrreflexive(s[i]);
    }
  }

  /** Adds `x` to an ascending list unless it is already there. */
  function InsertUnique(x: string, s: seq<string>): (r: seq<string>)
    requires StrictlyAscending(s)
    ensures StrictlyAscending(r)
    ensures forall t :: t in r <==> t == x || t in s
  {
    if s == [] then [x]
    else if x == s[0] then s
    else if Text.Less(x, s[0]) then
      assert forall j :: 0 < j < |s| ==> Text.Less(x, s[j]) by {
        forall j | 0 < j < |s| ensures Text.Less(x, s[j]) {
          Text.LessTransitive(x, s[0], s[j]);
        }
      }
      [x] + s
    else
      Text.LessTotal(x, s[0]);
      var rest := InsertUnique(x, s[1..]);
      assert s == [s[0]] + s[1..];
      assert forall j :: 0 <= j < |rest| ==> Text.Less(s[0], rest[j]) by {
        forall j | 0 <= j < |rest| ensures Text.Less(s[0], rest[j]) {
          assert rest[j] in rest;
        }
      }
      [s[0]] + rest
  }

  /** `[...new Set(xs)].sort()`: strictly ascending, with exactly the elements of `xs`. */
  function SortUnique(xs: seq<string>): (r: seq<string>)
    ensures StrictlyAscending(r)
    ensures forall t :: t in r <==> t in xs
  {
    if xs == [] then []
    else
      assert xs == [xs[0]] + xs[1..];
      InsertUnique(xs[0], SortUnique(xs[1..]))
  }

  lemma HeadIsElement(s: seq<string>)
    ensures s != [] ==> s[0] in s
  {
  }

  /**
   * A strictly ascending list is determined by its elements, so any way of
   * deduplicating and sorting yields the same list as `SortUnique`.
   */
  lemma {:induction false} StrictlyAscendingUnique(a: seq<string>, b: seq<string>)
    requires StrictlyAscending(a) && StrictlyAscending(b)
    requires forall t :: t in a <==> t in b
    ensures a == b
  {
    if a != [] && b != [] {
      assert a[0] in b && b[0] in a;
      var i :| 0 <= i < |a| && a[i] == b[0];
      var j :| 0 <= j < |b| && b[j] == a[0];
      Text.LessTotal(a[0], b[0]);
      if a[0] != b[0] {
        assert false;
      }
      StrictlyAscendingHasNoDuplicates(a);
      StrictlyAscendingHasNoDuplicates(b);
      forall t ensures t in a[1..] <==> t in b[1..] {
        if t in a[1..] {
          var i :| 1 <= i < |a| && a[i] == t;
          assert t != a[0];
        }
        if t in b[1..] {
          var j :| 1 <= j < |b| && b[j] == t;
          assert t != b[0];
        }
        assert t in a <==> t in b;
        assert a == [a[0]] + a[1..] && b == [b[0]] + b[1..];
      }
      StrictlyAscendingUnique(a[1..], b[1..]);
      assert a == [a[0]] + a[1..] && b == [b[0]] + b[1..];
    } else {
      HeadIsElement(a);
      HeadIsElement(b);
      if a != [] || b != [] {
        assert false;
      }
    }
  }
}
