/** Array operations of JavaScript (`filter`, `reduce`, `slice`) over sequences. */
module Seqs {

  /** `s.filter(keep)`: the elements of `s` that satisfy `keep`, in their order. */
  function Filter<T(==,!new)>(s: seq<T>, keep: T -> bool): (r: seq<T>)
    ensures |r| <= |s|
    ensures forall i :: 0 <= i < |r| ==> keep(r[i])
    ensures forall x :: x in r <==> x in s && keep(x)
    ensures forall x :: multiset(r)[x] == if keep(x) then multiset(s)[x] else 0
  {
    if s == [] then []
    else
      var rest := Filter(s[1..], keep);
      FilterStep(s, keep, rest);
      if keep(s[0]) then [s[0]] + rest else rest
  }

  /** The recursive case of `Filter`: keeping or dropping the head of `s`. */
  lemma FilterStep<T>(s: seq<T>, keep: T -> bool, rest: seq<T>)
    requires s != []
    requires |rest| <= |s[1..]|
    requires forall i :: 0 <= i < |rest| ==> keep(rest[i])
    requires forall x :: x in rest <==> x in s[1..] && keep(x)
    requires forall x :: multiset(rest)[x] == if keep(x) then multiset(s[1..])[x] else 0
    ensures var r := if keep(s[0]) then [s[0]] + rest else rest;
      && |r| <= |s|
      && (forall i :: 0 <= i < |r| ==> keep(r[i]))
      && (forall x :: x in r <==> x in s && keep(x))
      && (forall x :: multiset(r)[x] == if keep(x) then multiset(s)[x] else 0)
  {
    assert s == [s[0]] + s[1..];
    var r := if keep(s[0]) then [s[0]] + rest else rest;
    forall i | 0 <= i < |r| ensures keep(r[i]) {
      if keep(s[0]) && i > 0 {
        assert r[i] == rest[i - 1];
      }
    }
  }

  /** Filtering distributes over concatenation: the relative order of the kept elements is the input order. */
  lemma {:induction false} FilterAppend<T(!new)>(a: seq<T>, b: seq<T>, keep: T -> bool)
    ensures Filter(a + b, keep) == Filter(a, keep) + Filter(b, keep)
  {
    if a == [] {
      assert a + b == b;
    } else {
      var c := a + b;
      assert c[0] == a[0] && c[1..] == a[1..] + b;
      FilterAppend(a[1..], b, keep);
      if keep(a[0]) {
        calc {
          Filter(c, keep);
          [a[0]] + Filter(a[1..] + b, keep);
          [a[0]] + (Filter(a[1..], keep) + Filter(b, keep));
          ([a[0]] + Filter(a[1..], keep)) + Filter(b, keep);
        }
      }
    }
  }

  /** Filtering keeps everything exactly when every element passes. */
  lemma {:induction false} FilterKeepsAll<T(!new)>(s: seq<T>, keep: T -> bool)
    ensures Filter(s, keep) == s <==> forall x :: x in s ==> keep(x)
  {
    if s != [] {
      FilterKeepsAll(s[1..], keep);
      if !keep(s[0]) {
        assert |Filter(s, keep)| < |s| by { assert Filter(s, keep) == Filter(s[1..], keep); }
      }
    }
  }

  /** Filtering permutations of each other gives permutations of each other. */
  lemma FilterPermutation<T(!new)>(a: seq<T>, b: seq<T>, keep: T -> bool)
    requires multiset(a) == multiset(b)
    ensures multiset(Filter(a, keep)) == multiset(Filter(b, keep))
  {
    assert forall x :: multiset(Filter(a, keep))[x] == multiset(Filter(b, keep))[x];
  }



  /** `s.reduce((sum, x) => sum + value(x), 0)`. */
  function Sum<T>(s: seq<T>, value: T -> int): int
  {
    if s == [] then 0 else value(s[0]) + Sum(s[1..], value)
  }

  /** The sum over two runs is the sum of their sums. */
  lemma {:induction false} SumAppend<T>(a: seq<T>, b: seq<T>, value: T -> int)
    ensures Sum(a + b, value) == Sum(a, value) + Sum(b, value)
  {
    if a == [] {
      assert a + b == b;
    } else {
      assert (a + b)[1..] == a[1..] + b;
      SumAppend(a[1..], b, value);
    }
  }

  /** A sum of non-negative terms is at least each of them and at least zero. */
  lemma {:induction false} SumNonNegative<T>(s: seq<T>, value: T -> int)
    requires forall x :: x in s ==> value(x) >= 0
    ensures Sum(s, value) >= 0
    ensures forall i :: 0 <= i < |s| ==> value(s[i]) <= Sum(s, value)
  {
    if s != [] {
      SumNonNegative(s[1..], value);
      forall i | 0 < i < |s| ensures value(s[i]) <= Sum(s, value) {
        assert s[i] == s[1..][i - 1];
      }
    }
  }


  /**
   * The end index `Array.prototype.slice(0, end)` uses: a negative `end`
   * counts from the back (clamped at 0), a large one is clamped to the length.
   */
  function SliceEnd(length: nat, end: int): (k: nat)
    ensures k <= length
    ensures 0 <= end ==> k == if end < length then end else length
    ensures end < 0 ==> k == if length + end < 0 then 0 else length + end
  {
    if end < 0 then (if length + end < 0 then 0 else length + end)
    else if end < length then end
    else length
  }

  /** `s.slice(0, end)`. */
  function SlicePrefix<T>(s: seq<T>, end: int): (r: seq<T>)
    ensures |r| == SliceEnd(|s|, end)
    ensures r <= s
  {
    s[..SliceEnd(|s|, end)]
  }
}
