// Sequences seen as sets and as permutations.
module Seqs {

  ghost function Elems<T>(q: seq<T>): set<T> {
    set x | x in q
  }

  ghost predicate Distinct<T>(q: seq<T>) {
    forall i, j :: 0 <= i < j < |q| ==> q[i] != q[j]
  }

  lemma IndexOf<T>(q: seq<T>, x: T) returns (i: nat)
    requires x in q
    ensures i < |q| && q[i] == x
  {
    i :| i < |q| && q[i] == x;
  }

  lemma SamePrefix<T>(p: seq<T>, q: seq<T>, n: nat, i: nat)
    requires n <= |p| && n <= |q| && p[..n] == q[..n]
    ensures i < n ==> p[i] == q[i]
  {
    if i < n {
      assert p[i] == p[..n][i] == q[..n][i];
    }
  }

  lemma DistinctConcat<T>(a: seq<T>, b: seq<T>)
    requires Distinct(a) && Distinct(b)
    requires forall x :: x in a ==> x !in b
    ensures Distinct(a + b)
  {
    forall i, j | 0 <= i < j < |a + b| ensures (a + b)[i] != (a + b)[j] {
      if i < |a| <= j {
        assert a[i] in a && b[j - |a|] in b;
      }
    }
  }

  lemma DistinctHalves<T>(a: seq<T>, b: seq<T>)
    requires Distinct(a + b)
    ensures forall x :: x in a ==> x !in b
  {
    forall i, j | 0 <= i < |a| && 0 <= j < |b| ensures a[i] != b[j] {
      assert (a + b)[i] == a[i] && (a + b)[|a| + j] == b[j];
    }
  }

  lemma {:induction false} DistinctCount<T>(q: seq<T>)
    requires Distinct(q)
    ensures |Elems(q)| == |q|
    decreases |q|
  {
    if q == [] {
    } else {
      var n := |q| - 1;
      DistinctCount(q[..n]);
      assert Elems(q) == Elems(q[..n]) + {q[n]};
    }
  }

  lemma CountedTwice<T>(q: seq<T>, i: nat, j: nat)
    requires i < j < |q|
    ensures q[i] == q[j] ==> multiset(q)[q[i]] >= 2
  {
    assert q == q[..j] + q[j..];
    assert q[i] in q[..j] && q[j] in q[j..];
    assert multiset(q)[q[i]] == multiset(q[..j])[q[i]] + multiset(q[j..])[q[i]];
  }

  lemma SubsetCount<T>(s: set<T>, t: set<T>)
    requires s <= t
    ensures |s| <= |t|
  {
    assert t == s + (t - s);
  }

  // A sequence with the multiset of a set lists that set once each.
  lemma ListsOnce<T>(q: seq<T>, s: set<T>)
    requires multiset(q) == multiset(s)
    ensures Elems(q) == s && Distinct(q) && |q| == |s|
  {
    forall x ensures x in Elems(q) <==> x in s {
      assert x in q <==> multiset(q)[x] > 0;
    }
    forall i, j | 0 <= i < j < |q| ensures q[i] != q[j] {
      CountedTwice(q, i, j);
    }
    DistinctCount(q);
  }

  lemma {:induction false} DistinctMultiset<T>(q: seq<T>)
    requires Distinct(q)
    ensures forall x :: multiset(q)[x] == if x in q then 1 else 0
    decreases |q|
  {
    if q == [] {
    } else {
      var n := |q| - 1;
      assert q == q[..n] + [q[n]];
      DistinctMultiset(q[..n]);
    }
  }

  // The converse of `ListsOnce`.
  lemma OnceLists<T>(q: seq<T>, s: set<T>)
    requires Distinct(q) && Elems(q) == s
    ensures multiset(q) == multiset(s)
  {
    DistinctMultiset(q);
    forall x ensures multiset(q)[x] == multiset(s)[x] {
      assert x in q <==> x in s;
    }
  }

  lemma Reassociated<T>(a: seq<T>, b: seq<T>, c: seq<T>)
    ensures a + b + c == a + (b + c)
  {
  }

  // `a` is `b` with some of it left out.
  ghost predicate Within<T>(a: seq<T>, b: seq<T>)
    decreases |b|
  {
    a == [] || (b != [] && ((a[0] == b[0] && Within(a[1..], b[1..])) || Within(a, b[1..])))
  }

  lemma {:induction false} WithinConcat<T>(a: seq<T>, b: seq<T>, c: seq<T>, d: seq<T>)
    requires Within(a, b) && Within(c, d)
    ensures Within(a + c, b + d)
    decreases |b|
  {
    if b == [] {
      assert a + c == c && b + d == d;
    } else {
      assert (b + d)[1..] == b[1..] + d;
      if a != [] && a[0] == b[0] && Within(a[1..], b[1..]) {
        WithinConcat(a[1..], b[1..], c, d);
        assert (a + c)[1..] == a[1..] + c;
      } else {
        WithinConcat(a, b[1..], c, d);
      }
    }
  }

  // Nothing is made up, and what is listed once stays listed once.
  lemma {:induction false} WithinOnce<T>(a: seq<T>, b: seq<T>)
    requires Within(a, b)
    ensures forall x :: x in a ==> x in b
    ensures Distinct(b) ==> Distinct(a)
    decreases |b|
  {
    if a != [] && a[0] == b[0] && Within(a[1..], b[1..]) {
      WithinOnce(a[1..], b[1..]);
      assert a == [a[0]] + a[1..] && b == [b[0]] + b[1..];
      if Distinct(b) {
        assert Distinct(b[1..]);
        DistinctHalves([b[0]], b[1..]);
        DistinctConcat([a[0]], a[1..]);
      }
    } else if a != [] {
      WithinOnce(a, b[1..]);
    }
  }
}
