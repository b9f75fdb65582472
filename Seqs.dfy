/** Sequence operations the components use: `Array.prototype.filter`,
    occurrence counts, order preservation and duplicate freedom. */
module Seqs {

  /** `s.filter(keep)`: the elements of `s` satisfying `keep`, in their original order. */
  function Filter<T>(s: seq<T>, keep: T -> bool): (r: seq<T>)
    ensures |r| <= |s|
    ensures forall i :: 0 <= i < |r| ==> keep(r[i])
  {
    if s == [] then []
    else if keep(s[0]) then [s[0]] + Filter(s[1..], keep)
    else Filter(s[1..], keep)
  }

  /** The test `y => y !== x`. */
  function Differs<T(==)>(x: T): T -> bool {
    y => y != x
  }

  /** `s.filter(y => y !== x)`: every occurrence of `x` removed. */
  function RemoveAll<T(==)>(s: seq<T>, x: T): (r: seq<T>)
    ensures x !in r
  {
    var r := Filter(s, Differs(x));
    assert forall i :: 0 <= i < |r| ==> r[i] != x;
    r
  }

  /** Number of occurrences of `x` in `s`. */
  function Count<T(==)>(s: seq<T>, x: T): nat {
    if s == [] then 0 else (if s[0] == x then 1 else 0) + Count(s[1..], x)
  }

  /** No element occurs twice. */
  ghost predicate NoDup<T(!new)>(s: seq<T>) {
    forall x :: Count(s, x) <= 1
  }

  /** `a` is obtained from `b` by deleting elements, keeping the order of the rest. */
  predicate SubsequenceOf<T(==)>(a: seq<T>, b: seq<T>)
    decreases |b|
  {
    if a == [] then true
    else if b == [] then false
    else (a[0] == b[0] && SubsequenceOf(a[1..], b[1..])) || SubsequenceOf(a, b[1..])
  }

  lemma {:induction false} CountZeroIffAbsent<T>(s: seq<T>, x: T)
    ensures Count(s, x) == 0 <==> x !in s
  {
    if s != [] {
      CountZeroIffAbsent(s[1..], x);
      assert s == [s[0]] + s[1..];
    }
  }

  lemma {:induction false} CountAppend<T>(a: seq<T>, b: seq<T>, x: T)
    ensures Count(a + b, x) == Count(a, x) + Count(b, x)
  {
    if a == [] {
      assert a + b == b;
    } else {
      assert (a + b)[1..] == a[1..] + b;
      CountAppend(a[1..], b, x);
    }
  }

  /** A prefix holds no more copies of anything than the whole sequence. */
  lemma CountPrefix<T>(s: seq<T>, k: nat, x: T)
    requires k <= |s|
    ensures Count(s[..k], x) <= Count(s, x)
  {
    assert s == s[..k] + s[k..];
    CountAppend(s[..k], s[k..], x);
  }

  lemma NoDupPrefix<T(!new)>(s: seq<T>, k: nat)
    requires k <= |s| && NoDup(s)
    ensures NoDup(s[..k])
  {
    forall x ensures Count(s[..k], x) <= 1 {
      CountPrefix(s, k, x);
    }
  }

  /** Filtering keeps every copy of a kept element and no copy of a dropped one. */
  lemma {:induction false} FilterCount<T>(s: seq<T>, keep: T -> bool, x: T)
    ensures Count(Filter(s, keep), x) == if keep(x) then Count(s, x) else 0
  {
    if s != [] {
      FilterCount(s[1..], keep, x);
    }
  }

  lemma FilterMembership<T>(s: seq<T>, keep: T -> bool, x: T)
    ensures x in Filter(s, keep) <==> x in s && keep(x)
  {
    FilterCount(s, keep, x);
    CountZeroIffAbsent(Filter(s, keep), x);
    CountZeroIffAbsent(s, x);
  }

  /** Filtering keeps the surviving elements in their original order. */
  lemma {:induction false} FilterIsSubsequence<T>(s: seq<T>, keep: T -> bool)
    ensures SubsequenceOf(Filter(s, keep), s)
  {
    if s != [] {
      FilterIsSubsequence(s[1..], keep);
      if keep(s[0]) {
        assert Filter(s, keep)[1..] == Filter(s[1..], keep);
      }
    }
  }

  lemma {:induction false} FilterAppend<T>(a: seq<T>, b: seq<T>, keep: T -> bool)
    ensures Filter(a + b, keep) == Filter(a, keep) + Filter(b, keep)
  {
    if a == [] {
      assert a + b == b;
    } else {
      assert (a + b)[0] == a[0];
      assert (a + b)[1..] == a[1..] + b;
      FilterAppend(a[1..], b, keep);
    }
  }

  /** Filtering a sequence whose elements all pass leaves it unchanged. */
  lemma {:induction false} FilterAllKept<T>(s: seq<T>, keep: T -> bool)
    requires forall i :: 0 <= i < |s| ==> keep(s[i])
    ensures Filter(s, keep) == s
  {
    if s != [] {
      FilterAllKept(s[1..], keep);
    }
  }

  lemma RemoveAllAbsent<T>(s: seq<T>, x: T)
    requires x !in s
    ensures RemoveAll(s, x) == s
  {
    FilterAllKept(s, Differs(x));
  }

  /** Removing `x` keeps the count of every other element. */
  lemma RemoveAllCount<T>(s: seq<T>, x: T, y: T)
    ensures Count(RemoveAll(s, x), y) == if y == x then 0 else Count(s, y)
  {
    FilterCount(s, Differs(x), y);
  }

  lemma RemoveAllNoDup<T(!new)>(s: seq<T>, x: T)
    requires NoDup(s)
    ensures NoDup(RemoveAll(s, x))
  {
    forall y ensures Count(RemoveAll(s, x), y) <= 1 {
      RemoveAllCount(s, x, y);
    }
  }
}
