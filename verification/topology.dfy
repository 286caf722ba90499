// The deterministic topological order of a merge set.
module Topology {
  import opened Blocks
  import opened Seqs
  import opened Ghostdag

  ghost predicate Ascending(g: Dag, q: seq<Id>) {
    forall i, j :: 0 <= i < j < |q| ==> Below(g, q[i], q[j])
  }

  // Every parent that belongs to the set stands before its child.
  ghost predicate Topological(g: Dag, members: set<Id>, q: seq<Id>) {
    forall i :: 0 <= i < |q| ==> Ready(g, members, q[..i], q[i])
  }

  lemma {:induction false} SortedIsAscending(g: Dag, s: set<Id>)
    ensures Elems(Sorted(g, s)) == s
    ensures Ascending(g, Sorted(g, s))
  {
    if s == {} {
    } else {
      var m := Least(g, s);
      SortedIsAscending(g, s - {m});
      var rest := Sorted(g, s - {m});
      assert forall x :: x in Elems(rest) <==> x in s && x != m;
      forall i, j | 0 <= i < j < |Sorted(g, s)| ensures Below(g, Sorted(g, s)[i], Sorted(g, s)[j]) {
        assert rest[j - 1] in Elems(rest);
      }
    }
  }

  lemma LeastIsUnique(g: Dag, s: set<Id>, m: Id)
    requires m in s && forall x :: x in s && x != m ==> Below(g, m, x)
    ensures Least(g, s) == m
  {
  }

  // Two ascending listings of one set are the same list.
  lemma {:induction false} AscendingIsSorted(g: Dag, q: seq<Id>, s: set<Id>)
    requires Ascending(g, q) && Elems(q) == s
    ensures q == Sorted(g, s)
    decreases |q|
  {
    if q == [] {
      assert s == {};
    } else {
      var m := q[0];
      forall x | x in s && x != m ensures Below(g, m, x) {
        var i :| 0 <= i < |q| && q[i] == x;
      }
      LeastIsUnique(g, s, m);
      assert Elems(q[1..]) == s - {m} by {
        forall x ensures x in q[1..] <==> x in s && x != m {
          if x in q[1..] {
            var j :| 0 <= j < |q| - 1 && q[1..][j] == x;
            assert Below(g, q[0], q[j + 1]);
          }
          if x in s && x != m {
            assert x in q;
          }
        }
      }
      AscendingIsSorted(g, q[1..], s - {m});
    }
  }

  lemma {:induction false} SweepEmits(g: Dag, members: set<Id>, remaining: seq<Id>, out: seq<Id>, left: seq<Id>)
    requires Topological(g, members, out)
    ensures var (o, l) := Sweep(g, members, remaining, out, left);
      && out <= o && Topological(g, members, o)
      && multiset(o) + multiset(l) == multiset(remaining) + multiset(out) + multiset(left)
    decreases |remaining|
  {
    if remaining == [] {
    } else {
      var b := remaining[0];
      assert remaining == [b] + remaining[1..];
      if Ready(g, members, out, b) {
        var out' := out + [b];
        assert forall i :: 0 <= i < |out| ==> out'[..i] == out[..i];
        assert out'[..|out|] == out;
        SweepEmits(g, members, remaining[1..], out', left);
      } else {
        SweepEmits(g, members, remaining[1..], out, left + [b]);
      }
    }
  }

  // A sweep that meets a ready block emits something.
  lemma {:induction false} SweepProgresses(g: Dag, members: set<Id>, remaining: seq<Id>, out: seq<Id>, left: seq<Id>,
      b: Id)
    requires b in remaining && Ready(g, members, out, b)
    ensures |Sweep(g, members, remaining, out, left).1| < |remaining| + |left|
    decreases |remaining|
  {
    var x := remaining[0];
    if Ready(g, members, out, x) {
      SweepLeaves(g, members, remaining[1..], out + [x], left);
    } else {
      assert b in remaining[1..];
      SweepProgresses(g, members, remaining[1..], out, left + [x], b);
    }
  }

  lemma {:induction false} SweepLeaves(g: Dag, members: set<Id>, remaining: seq<Id>, out: seq<Id>, left: seq<Id>)
    ensures |Sweep(g, members, remaining, out, left).1| <= |remaining| + |left|
    decreases |remaining|
  {
    if remaining == [] {
    } else if Ready(g, members, out, remaining[0]) {
      SweepLeaves(g, members, remaining[1..], out + [remaining[0]], left);
    } else {
      SweepLeaves(g, members, remaining[1..], out, left + [remaining[0]]);
    }
  }

  lemma {:induction false} LowestExists(g: Dag, q: seq<Id>) returns (b: Id)
    requires q != []
    ensures b in q && forall x :: x in q ==> Height(g, b) <= Height(g, x)
    decreases |q|
  {
    b := q[0];
    if |q| > 1 {
      var c := LowestExists(g, q[1..]);
      assert forall x :: x in q ==> x == q[0] || x in q[1..];
      if Height(g, c) < Height(g, b) { b := c; }
    }
  }

  lemma Swap(a: multiset<Id>, b: multiset<Id>, c: multiset<Id>)
    requires a + b == c + multiset([])
    ensures b + a == c
  {
    assert c + multiset([]) == c;
  }

  lemma LowestIsReady(g: Dag, members: set<Id>, remaining: seq<Id>, out: seq<Id>, b: Id)
    requires Grounded(g) && members <= g.headers.Keys
    requires forall x :: x in members <==> x in remaining || x in out
    requires b in remaining && forall x :: x in remaining ==> Height(g, b) <= Height(g, x)
    ensures Ready(g, members, out, b)
  {
    assert b in members;
    forall p | p in g.headers[b].parents && p in members ensures p in out {
      assert Placed(g, b);
    }
  }

  // The loop never stalls: a lowest remaining block is always ready.
  lemma {:induction false} SweepsOrder(g: Dag, members: set<Id>, remaining: seq<Id>, out: seq<Id>, all: multiset<Id>)
    requires Grounded(g) && members <= g.headers.Keys
    requires Topological(g, members, out)
    requires multiset(remaining) + multiset(out) == all
    requires forall x :: x in all <==> x in members
    ensures Topological(g, members, Sweeps(g, members, remaining, out))
    ensures multiset(Sweeps(g, members, remaining, out)) == all
    decreases |remaining|
  {
    if remaining == [] {
    } else {
      var b := LowestExists(g, remaining);
      assert forall x :: x in all <==> x in multiset(remaining) || x in multiset(out);
      LowestIsReady(g, members, remaining, out, b);
      SweepEmits(g, members, remaining, out, []);
      SweepProgresses(g, members, remaining, out, [], b);
      var (o, l) := Sweep(g, members, remaining, out, []);
      Swap(multiset(o), multiset(l), multiset(remaining) + multiset(out));
      SweepsOrder(g, members, l, o, all);
    }
  }

  // `topological_sort` lists the set once each, parents first.
  lemma TopologicalSortOrders(g: Dag, s: set<Id>)
    requires Grounded(g) && s <= g.headers.Keys
    ensures multiset(TopologicalSort(g, s)) == multiset(s)
    ensures Elems(TopologicalSort(g, s)) == s && Distinct(TopologicalSort(g, s))
    ensures Topological(g, s, TopologicalSort(g, s))
  {
    SortedIsAscending(g, s);
    OnceLists(Sorted(g, s), s);
    SweepsOrder(g, s, Sorted(g, s), [], multiset(s));
    ListsOnce(TopologicalSort(g, s), s);
  }

  lemma {:induction false} SweepOfOrdered(g: Dag, members: set<Id>, remaining: seq<Id>, out: seq<Id>)
    requires Topological(g, members, out + remaining)
    ensures Sweep(g, members, remaining, out, []) == (out + remaining, [])
    decreases |remaining|
  {
    if remaining == [] {
      assert out + remaining == out;
    } else {
      var b := remaining[0];
      assert (out + remaining)[|out|] == b && (out + remaining)[..|out|] == out;
      assert (out + [b]) + remaining[1..] == out + remaining;
      SweepOfOrdered(g, members, remaining[1..], out + [b]);
    }
  }

  // The multi-pass sort is the plain sort by (blue work, hash) exactly when
  // that plain sort already lists parents first.
  lemma TopologicalSortIsPlainSort(g: Dag, s: set<Id>)
    requires Grounded(g) && s <= g.headers.Keys
    ensures TopologicalSort(g, s) == Sorted(g, s) <==> Topological(g, s, Sorted(g, s))
  {
    TopologicalSortOrders(g, s);
    if Topological(g, s, Sorted(g, s)) {
      var q := Sorted(g, s);
      assert [] + q == q;
      SweepOfOrdered(g, s, q, []);
      assert q != [] ==> Sweeps(g, s, q, []) == Sweeps(g, s, [], q);
    }
  }
}
