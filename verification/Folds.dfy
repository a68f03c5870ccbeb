/** Sums and multiset unions over a sequence, with the laws of appending to it and of replacing one element. */
module Folds {

  function Sum<T>(s: seq<T>, f: T -> int): int {
    if s == [] then 0 else Sum(s[..|s| - 1], f) + f(s[|s| - 1])
  }

  function Collect<T, E>(s: seq<T>, f: T -> multiset<E>): multiset<E> {
    if s == [] then multiset{} else Collect(s[..|s| - 1], f) + f(s[|s| - 1])
  }

  lemma {:induction false} SumAppend<T>(s: seq<T>, t: seq<T>, f: T -> int)
    ensures Sum(s + t, f) == Sum(s, f) + Sum(t, f)
  {
    if t == [] {
      assert s + t == s;
    } else {
      var n := |t| - 1;
      assert (s + t)[..|s + t| - 1] == s + t[..n];
      SumAppend(s, t[..n], f);
    }
  }

  lemma {:induction false} SumUpdate<T>(s: seq<T>, i: nat, x: T, f: T -> int)
    requires i < |s|
    ensures Sum(s[i := x], f) == Sum(s, f) - f(s[i]) + f(x)
  {
    var n := |s| - 1;
    if i == n {
      assert s[i := x][..n] == s[..n];
    } else {
      assert s[i := x][..n] == s[..n][i := x];
      SumUpdate(s[..n], i, x, f);
    }
  }

  /** A sum of terms bounded by another sum's terms is bounded by it, and equals it only if all terms agree. */
  lemma {:induction false} SumBounded<T>(s: seq<T>, f: T -> int, g: T -> int)
    requires forall x :: x in s ==> f(x) <= g(x)
    ensures Sum(s, f) <= Sum(s, g)
    ensures Sum(s, f) == Sum(s, g) <==> forall x :: x in s ==> f(x) == g(x)
  {
    if s != [] {
      var n := |s| - 1;
      var last := s[n];
      assert s == s[..n] + [last];
      assert last in s;
      SumBounded(s[..n], f, g);
    }
  }

  lemma {:induction false} CollectAppend<T, E>(s: seq<T>, t: seq<T>, f: T -> multiset<E>)
    ensures Collect(s + t, f) == Collect(s, f) + Collect(t, f)
  {
    if t == [] {
      assert s + t == s;
    } else {
      var n := |t| - 1;
      assert (s + t)[..|s + t| - 1] == s + t[..n];
      CollectAppend(s, t[..n], f);
    }
  }

  lemma AddToBoth<E>(a: multiset<E>, b: multiset<E>, c: multiset<E>, d: multiset<E>, more: multiset<E>)
    requires a + b == c + d
    ensures (a + more) + b == (c + more) + d
  {
    assert (a + more) + b == (a + b) + more;
    assert (c + more) + d == (c + d) + more;
  }

  lemma {:induction false} CollectUpdate<T, E>(s: seq<T>, i: nat, x: T, f: T -> multiset<E>)
    requires i < |s|
    ensures Collect(s[i := x], f) + f(s[i]) == Collect(s, f) + f(x)
  {
    var n := |s| - 1;
    var last := f(s[n]);
    if i == n {
      assert s[i := x][..n] == s[..n];
    } else {
      assert s[i := x][..n] == s[..n][i := x];
      CollectUpdate(s[..n], i, x, f);
      var after, before := Collect(s[..n][i := x], f), Collect(s[..n], f);
      AddToBoth(after, f(s[i]), before, f(x), last);
      assert Collect(s, f) == before + last;
      assert Collect(s[i := x], f) == after + f(s[i := x][n]);
    }
  }

  lemma {:induction false} CollectCongruent<T, E>(s: seq<T>, f: T -> multiset<E>, g: T -> multiset<E>)
    requires forall x :: x in s ==> f(x) == g(x)
    ensures Collect(s, f) == Collect(s, g)
  {
    if s != [] {
      var n := |s| - 1;
      assert s[n] in s;
      CollectCongruent(s[..n], f, g);
    }
  }

  lemma {:induction false} CollectSize<T, E>(s: seq<T>, f: T -> multiset<E>, size: T -> int)
    requires forall x :: x in s ==> |f(x)| == size(x)
    ensures |Collect(s, f)| == Sum(s, size)
  {
    if s != [] {
      var n := |s| - 1;
      assert s[n] in s;
      CollectSize(s[..n], f, size);
    }
  }
}
