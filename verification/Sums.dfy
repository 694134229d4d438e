/** Sums of a weight over a sequence, and their independence of order. */
module Sums {

  function Sum<T>(w: T -> int, s: seq<T>): int {
    if s == [] then 0 else Sum(w, s[..|s| - 1]) + w(s[|s| - 1])
  }

  lemma SumAppend<T>(w: T -> int, s: seq<T>, x: T)
    ensures Sum(w, s + [x]) == Sum(w, s) + w(x)
  {
    assert (s + [x])[..|s|] == s;
  }

  lemma {:induction false} SumConcat<T>(w: T -> int, a: seq<T>, b: seq<T>)
    ensures Sum(w, a + b) == Sum(w, a) + Sum(w, b)
  {
    if b == [] {
      assert a + b == a;
    } else {
      SumConcat(w, a, b[..|b| - 1]);
      assert (a + b)[..|a + b| - 1] == a + b[..|b| - 1];
    }
  }

  function Remove<T>(s: seq<T>, i: nat): seq<T>
    requires i < |s|
  {
    s[..i] + s[i + 1..]
  }

  lemma SplitAt<T>(s: seq<T>, i: nat)
    requires i < |s|
    ensures s == s[..i] + ([s[i]] + s[i + 1..])
  {
  }

  lemma {:induction false} SumRemove<T>(w: T -> int, s: seq<T>, i: nat)
    requires i < |s|
    ensures Sum(w, s) == Sum(w, Remove(s, i)) + w(s[i])
  {
    SplitAt(s, i);
    SumConcat(w, s[..i], s[i + 1..]);
    SumMiddle(w, s[..i], s[i], s[i + 1..]);
  }

  lemma SumMiddle<T>(w: T -> int, a: seq<T>, x: T, b: seq<T>)
    ensures Sum(w, a + ([x] + b)) == Sum(w, a) + w(x) + Sum(w, b)
  {
    SumConcat(w, a, [x] + b);
    SumConcat(w, [x], b);
    SumAppend(w, [], x);
    assert [] + [x] == [x];
  }

  lemma SumUpdate<T>(w: T -> int, s: seq<T>, i: nat, x: T)
    requires i < |s|
    ensures Sum(w, s[i := x]) == Sum(w, s) - w(s[i]) + w(x)
  {
    SumRemove(w, s, i);
    SumRemove(w, s[i := x], i);
    assert Remove(s[i := x], i) == Remove(s, i);
  }

  lemma {:induction false} SumBounds<T>(w: T -> int, s: seq<T>, lo: int, hi: int)
    requires forall i :: 0 <= i < |s| ==> lo <= w(s[i]) <= hi
    ensures lo * |s| <= Sum(w, s) <= hi * |s|
  {
    if s == [] {
    } else {
      SumBounds(w, s[..|s| - 1], lo, hi);
      OneTimeMore(lo, |s| - 1);
      OneTimeMore(hi, |s| - 1);
    }
  }

  lemma OneTimeMore(x: int, n: nat)
    ensures x * (n + 1) == x * n + x
  {
  }

  /** Permuting a sequence does not change its sum. */
  lemma {:induction false} SumPermutes<T>(w: T -> int, a: seq<T>, b: seq<T>)
    requires multiset(a) == multiset(b)
    ensures Sum(w, a) == Sum(w, b)
    decreases |a|
  {
    if a == [] {
      assert |multiset(b)| == 0;
    } else {
      var n := |a| - 1;
      var x := a[n];
      assert x in multiset(a);
      var i :| 0 <= i < |b| && b[i] == x;
      assert a == a[..n] + [x];
      MultisetRemove(b, i);
      SumPermutes(w, a[..n], Remove(b, i));
      SumRemove(w, b, i);
    }
  }

  lemma MultisetRemove<T>(s: seq<T>, i: nat)
    requires i < |s|
    ensures multiset(Remove(s, i)) == multiset(s) - multiset{s[i]}
  {
    SplitAt(s, i);
  }
}
