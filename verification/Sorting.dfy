// `Vec::sort` and `Vec::dedup` on strings.
module Sorting {
  import opened Rfc3339

  predicate Ascending(s: seq<string>) {
    forall i, j :: 0 <= i < j < |s| ==> !Before(s[j], s[i])
  }

  predicate StrictlyAscending(s: seq<string>) {
    forall i, j :: 0 <= i < j < |s| ==> Before(s[i], s[j])
  }

  function Insert(x: string, s: seq<string>): (r: seq<string>)
    requires Ascending(s)
    ensures Ascending(r) && multiset(r) == multiset(s) + multiset{x}
  {
    if s == [] then [x]
    else if !Before(s[0], x) then
      assert forall j :: 0 <= j < |s| ==> !Before(s[j], x) by {
        forall j | 0 <= j < |s| ensures !Before(s[j], x) {
          BeforeTotal(s[0], s[0]);
          NotBeforeTransitive(x, s[0], s[j]);
        }
      }
      [x] + s
    else
      var r := Insert(x, s[1..]);
      assert s == [s[0]] + s[1..];
      assert forall y :: y in r ==> !Before(y, s[0]) by {
        BeforeTotal(s[0], x);
        forall y | y in r ensures !Before(y, s[0]) {
          assert y in multiset(r);
          assert y == x || y in s[1..];
        }
      }
      [s[0]] + r
  }

  lemma NotBeforeTransitive(a: string, b: string, c: string)
    requires !Before(b, a) && !Before(c, b)
    ensures !Before(c, a)
  {
    BeforeTotal(a, b);
    BeforeTotal(b, c);
    if Before(c, a) {
      if a != b {
        BeforeTransitive(c, a, b);
      }
      BeforeTotal(c, b);
    }
  }

  function Sort(s: seq<string>): (r: seq<string>)
    ensures Ascending(r) && multiset(r) == multiset(s)
  {
    if s == [] then []
    else
      assert s == s[..|s| - 1] + [s[|s| - 1]];
      Insert(s[|s| - 1], Sort(s[..|s| - 1]))
  }

  // Drops every element equal to the one kept before it.
  function Dedup(s: seq<string>): (r: seq<string>)
    ensures |s| > 0 ==> |r| > 0 && r[|r| - 1] == s[|s| - 1]
    ensures forall x :: x in r <==> x in s
  {
    if |s| <= 1 then s
    else
      var r := Dedup(s[..|s| - 1]);
      assert s == s[..|s| - 1] + [s[|s| - 1]];
      if s[|s| - 2] == s[|s| - 1] then r else r + [s[|s| - 1]]
  }

  lemma {:induction false} DedupStrict(s: seq<string>)
    requires Ascending(s)
    ensures StrictlyAscending(Dedup(s))
  {
    if |s| > 1 {
      var t := s[..|s| - 1];
      DedupStrict(t);
      var r, x := Dedup(t), s[|s| - 1];
      if s[|s| - 2] != x {
        forall i | 0 <= i < |r| ensures Before(r[i], x) {
          BeforeTotal(s[|s| - 2], x);
          assert r[|r| - 1] == s[|s| - 2];
          if i < |r| - 1 {
            BeforeTransitive(r[i], r[|r| - 1], x);
          }
        }
      }
    }
  }

  // Sorting and deduplicating gives the one strictly ascending list of the
  // elements.
  lemma SortDedup(s: seq<string>)
    ensures StrictlyAscending(Dedup(Sort(s)))
    ensures forall x :: x in Dedup(Sort(s)) <==> x in s
  {
    DedupStrict(Sort(s));
    forall x ensures x in Sort(s) <==> x in s {
      assert x in multiset(Sort(s)) <==> x in multiset(s);
    }
  }

  lemma {:induction false} StrictUnique(a: seq<string>, b: seq<string>)
    requires StrictlyAscending(a) && StrictlyAscending(b)
    requires forall x :: x in a <==> x in b
    ensures a == b
  {
    if a == [] {
      assert multiset(b) == multiset{} by {
        assert forall x :: x in multiset(b) ==> x in b;
      }
    } else {
      assert a[0] in b && b[0] in a;
      BeforeTotal(a[0], b[0]);
      assert a[0] == b[0];
      forall x ensures x in a[1..] <==> x in b[1..] {
        BeforeTotal(a[0], a[0]);
        assert x in a <==> x == a[0] || x in a[1..];
        assert x in b <==> x == b[0] || x in b[1..];
        assert a[0] !in a[1..] && b[0] !in b[1..];
      }
      StrictUnique(a[1..], b[1..]);
      assert a == [a[0]] + a[1..] && b == [b[0]] + b[1..];
    }
  }
}
