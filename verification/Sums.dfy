/** Finite sums over sequences, used to count blocks in flight and to measure runs, and sizes of sets. */
module Sums {

  function Sum<T>(f: T -> nat, s: seq<T>): nat {
    if s == [] then 0 else f(s[0]) + Sum(f, s[1..])
  }

  function RemoveAt<T>(s: seq<T>, i: nat): (r: seq<T>)
    requires i < |s|
    ensures |r| == |s| - 1
    ensures forall x <- r :: x in s
  {
    s[..i] + s[i + 1..]
  }

  lemma SumOne<T>(f: T -> nat, x: T)
    ensures Sum(f, [x]) == f(x)
  {
  }

  lemma {:induction false} SumAppend<T>(f: T -> nat, a: seq<T>, b: seq<T>)
    ensures Sum(f, a + b) == Sum(f, a) + Sum(f, b)
  {
    if a == [] {
      assert a + b == b;
    } else {
      assert (a + b)[1..] == a[1..] + b;
      SumAppend(f, a[1..], b);
    }
  }

  lemma SumRemove<T>(f: T -> nat, s: seq<T>, i: nat)
    requires i < |s|
    ensures Sum(f, s) == Sum(f, RemoveAt(s, i)) + f(s[i])
  {
    assert s == s[..i] + ([s[i]] + s[i + 1..]);
    SumAppend(f, s[..i], [s[i]] + s[i + 1..]);
    SumAppend(f, [s[i]], s[i + 1..]);
    SumAppend(f, s[..i], s[i + 1..]);
  }

  /** Removing one element and adding others, the shape of every delivery. */
  lemma SumDeliver<T>(f: T -> nat, s: seq<T>, i: nat, out: seq<T>)
    requires i < |s|
    ensures Sum(f, RemoveAt(s, i) + out) + f(s[i]) == Sum(f, s) + Sum(f, out)
  {
    SumRemove(f, s, i);
    SumAppend(f, RemoveAt(s, i), out);
  }

  lemma SumUpdate<T>(f: T -> nat, s: seq<T>, i: nat, x: T)
    requires i < |s|
    ensures Sum(f, s[i := x]) + f(s[i]) == Sum(f, s) + f(x)
  {
    var t := s[i := x];
    assert RemoveAt(t, i) == RemoveAt(s, i);
    SumRemove(f, s, i);
    SumRemove(f, t, i);
  }

  /** If t exceeds s pointwise by k times u, so do the sums. */
  lemma {:induction false} SumPointwise<T, U>(f: T -> nat, s: seq<T>, t: seq<T>, k: nat, g: U -> nat, u: seq<U>)
    requires |s| == |t| == |u|
    requires forall i :: 0 <= i < |s| ==> f(t[i]) == f(s[i]) + k * g(u[i])
    ensures Sum(f, t) == Sum(f, s) + k * Sum(g, u)
  {
    if s != [] {
      SumPointwise(f, s[1..], t[1..], k, g, u[1..]);
      assert k * (g(u[0]) + Sum(g, u[1..])) == k * g(u[0]) + k * Sum(g, u[1..]);
    }
  }

  lemma {:induction false} SumPositive<T>(f: T -> nat, s: seq<T>)
    ensures Sum(f, s) > 0 <==> exists x :: x in s && f(x) > 0
  {
    if s != [] {
      SumPositive(f, s[1..]);
      assert s == [s[0]] + s[1..];
    }
  }

  lemma {:induction false} SumMember<T>(f: T -> nat, s: seq<T>, x: T)
    requires x in s
    ensures f(x) <= Sum(f, s)
  {
    if s[0] != x {
      assert x in s[1..];
      SumMember(f, s[1..], x);
    }
  }

  /** A list of numbers below n has n members if it holds each once, and at most n if it repeats none. */
  lemma {:induction false} CountBelow(s: seq<int>, n: nat)
    requires forall x <- s :: 0 <= x < n
    requires forall v :: 0 <= v < n ==> multiset(s)[v] <= 1
    ensures |s| <= n
    ensures (forall v :: 0 <= v < n ==> multiset(s)[v] == 1) ==> |s| == n
  {
    if s == [] {
      assert n > 0 ==> multiset(s)[0] == 0;
    } else {
      assert s[0] in s && 0 <= s[0] < n;
      var m := n - 1;
      if m in s {
        var i: nat :| i < |s| && s[i] == m;
        var t := RemoveAt(s, i);
        OnceRemoved(s, i);
        CountBelow(t, m);
      } else {
        assert multiset(s)[m] == 0;
        CountBelow(s, m);
      }
    }
  }

  lemma OnceRemoved(s: seq<int>, i: nat)
    requires i < |s| && multiset(s)[s[i]] <= 1
    ensures forall v :: v != s[i] ==> multiset(RemoveAt(s, i))[v] == multiset(s)[v]
    ensures s[i] !in RemoveAt(s, i)
  {
    var t := RemoveAt(s, i);
    assert s == s[..i] + [s[i]] + s[i + 1..];
    assert multiset(s) == multiset(t) + multiset{s[i]};
  }

  // ---- sizes of sets ----

  lemma {:induction false} Fewer<T>(a: set<T>, b: set<T>)
    requires a <= b
    ensures |a| <= |b|
  {
    if a != {} {
      var z :| z in a;
      Fewer(a - {z}, b - {z});
    }
  }

  lemma StrictlyFewer<T>(a: set<T>, b: set<T>)
    requires a < b
    ensures |a| < |b|
  {
    var z :| z in b && z !in a;
    Fewer(a, b - {z});
  }

  /** The numbers below k. */
  ghost function Numbers(k: nat): (s: set<nat>)
    ensures |s| == k && forall i: nat :: i in s <==> i < k
  {
    if k == 0 then {} else Numbers(k - 1) + {k - 1}
  }
}
