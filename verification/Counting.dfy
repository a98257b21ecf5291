// Counting the elements of a sequence that meet a test.
module Counting {

  function Count<T>(p: T -> bool, s: seq<T>): (n: nat)
    ensures n <= |s|
  {
    if s == [] then 0
    else Count(p, s[..|s| - 1]) + if p(s[|s| - 1]) then 1 else 0
  }

  lemma CountSnoc<T>(p: T -> bool, s: seq<T>, n: nat)
    requires n < |s|
    ensures Count(p, s[..n + 1]) == Count(p, s[..n]) + if p(s[n]) then 1 else 0
  {
    assert s[..n + 1][..n] == s[..n];
  }

  lemma {:induction false} CountConcat<T>(p: T -> bool, a: seq<T>, b: seq<T>)
    ensures Count(p, a + b) == Count(p, a) + Count(p, b)
  {
    if b == [] {
      assert a + b == a;
    } else {
      assert (a + b)[..|a + b| - 1] == a + b[..|b| - 1];
      CountConcat(p, a, b[..|b| - 1]);
    }
  }

  lemma CountRemove<T>(p: T -> bool, s: seq<T>, k: nat)
    requires k < |s|
    ensures Count(p, s) == Count(p, s[..k] + s[k + 1..]) + if p(s[k]) then 1 else 0
  {
    CountSnoc(p, s, k);
    CountConcat(p, s[..k + 1], s[k + 1..]);
    CountConcat(p, s[..k], s[k + 1..]);
    assert s[..k + 1] + s[k + 1..] == s;
  }

  // Counting does not look at the order of the elements.
  lemma {:induction false} CountPermutation<T>(p: T -> bool, a: seq<T>, b: seq<T>)
    requires multiset(a) == multiset(b)
    ensures Count(p, a) == Count(p, b)
    decreases |a|
  {
    assert |a| == |multiset(a)| == |multiset(b)| == |b|;
    if a != [] {
      var n := |a| - 1;
      assert a == a[..n] + [a[n]];
      assert a[n] in multiset(a);
      var k :| 0 <= k < |b| && b[k] == a[n];
      assert b == b[..k] + [b[k]] + b[k + 1..];
      CountRemove(p, b, k);
      assert multiset(a[..n]) == multiset(a) - multiset{a[n]};
      assert multiset(b[..k] + b[k + 1..]) == multiset(b[..k]) + multiset(b[k + 1..]) == multiset(b) - multiset{b[k]};
      CountPermutation(p, a[..n], b[..k] + b[k + 1..]);
    }
  }

  lemma {:induction false} CountImplies<T>(p: T -> bool, q: T -> bool, s: seq<T>)
    requires forall x :: x in s && p(x) ==> q(x)
    ensures Count(p, s) <= Count(q, s)
  {
    if s != [] {
      CountImplies(p, q, s[..|s| - 1]);
    }
  }

  // A subset is no larger.
  lemma {:induction false} SubsetSize<T>(a: set<T>, b: set<T>)
    requires a <= b
    ensures |a| <= |b|
  {
    assert b == a + (b - a);
  }
}
