/** Sums and counts over the elements of a sequence, and the fact that they depend only on
    which elements are present (the multiset), not on their order. */
module Tally {

  /** The sum of `f` over the elements of `s`, accumulated from the front as `each` does. */
  function SeqSum<T>(s: seq<T>, f: T -> int): int
  {
    if s == [] then 0 else SeqSum(s[..|s| - 1], f) + f(s[|s| - 1])
  }

  /** How many elements of `s` satisfy `p`, as `count` does. */
  function Count<T>(s: seq<T>, p: T -> bool): (n: nat)
    ensures n <= |s|
  {
    if s == [] then 0 else Count(s[..|s| - 1], p) + (if p(s[|s| - 1]) then 1 else 0)
  }

  function Indicator<T>(p: T -> bool): T -> int
  {
    x => if p(x) then 1 else 0
  }

  lemma {:induction false} SeqSumAppend<T>(a: seq<T>, b: seq<T>, f: T -> int)
    ensures SeqSum(a + b, f) == SeqSum(a, f) + SeqSum(b, f)
  {
    if b != [] {
      assert (a + b)[..|a + b| - 1] == a + b[..|b| - 1];
      SeqSumAppend(a, b[..|b| - 1], f);
    } else {
      assert a + b == a;
    }
  }

  lemma SeqSumSingle<T>(x: T, f: T -> int)
    ensures SeqSum([x], f) == f(x)
  {
    assert [x][..0] == [];
  }

  /** Reordering the elements does not change the sum. */
  lemma {:induction false} SeqSumPermutation<T>(a: seq<T>, b: seq<T>, f: T -> int)
    requires multiset(a) == multiset(b)
    ensures SeqSum(a, f) == SeqSum(b, f)
  {
    if a != [] {
      var n := |a| - 1;
      var x := a[n];
      assert a == a[..n] + [x];
      assert x in multiset(b);
      var i :| 0 <= i < |b| && b[i] == x;
      var b' := b[..i] + b[i + 1..];
      assert b == b[..i] + [x] + b[i + 1..];
      assert multiset(b') == multiset(b) - multiset{x};
      assert multiset(a[..n]) == multiset(a) - multiset{x};
      SeqSumPermutation(a[..n], b', f);
      SeqSumAppend(b[..i] + [x], b[i + 1..], f);
      SeqSumAppend(b[..i], [x], f);
      SeqSumAppend(b[..i], b[i + 1..], f);
      SeqSumSingle(x, f);
    }
  }

  lemma {:induction false} CountIsSum<T>(s: seq<T>, p: T -> bool)
    ensures Count(s, p) == SeqSum(s, Indicator(p))
  {
    if s != [] {
      CountIsSum(s[..|s| - 1], p);
    }
  }

  /** Reordering the elements does not change the count. */
  lemma CountPermutation<T>(a: seq<T>, b: seq<T>, p: T -> bool)
    requires multiset(a) == multiset(b)
    ensures Count(a, p) == Count(b, p)
  {
    CountIsSum(a, p);
    CountIsSum(b, p);
    SeqSumPermutation(a, b, Indicator(p));
  }

  /** A sum of terms that each lie between `lo` and `hi`. */
  lemma {:induction false} SeqSumBounds<T>(s: seq<T>, f: T -> int, lo: int, hi: int)
    requires forall i :: 0 <= i < |s| ==> lo <= f(s[i]) <= hi
    ensures lo * |s| <= SeqSum(s, f) <= hi * |s|
  {
    if s != [] {
      var n := |s| - 1;
      var init, last := s[..n], f(s[n]);
      forall i | 0 <= i < n
        ensures lo <= f(init[i]) <= hi
      {
        assert init[i] == s[i];
      }
      SeqSumBounds(init, f, lo, hi);
      assert SeqSum(s, f) == SeqSum(init, f) + last;
      assert lo <= last <= hi;
      MulSucc(lo, n);
      MulSucc(hi, n);
    }
  }

  lemma MulSucc(a: int, n: int)
    ensures a * (n + 1) == a * n + a
  {
  }
}
