// Accumulated blue work along ancestry, and what it makes of tip selection.
module BlueWorks {
  import opened Blocks
  import opened Reachability
  import opened Compact
  import opened Seqs
  import opened Ghostdag
  import opened Topology
  import opened BlueSets

  lemma {:induction false} AddWorkGrows(g: Dag, work: U256, blues: seq<Id>)
    ensures AddWork(g, work, blues) >= work
    decreases |blues|
  {
    if blues == [] {
    } else {
      AddWorkGrows(g, Work.SaturatingAdd(work, BlockWork(g, blues[0])), blues[1..]);
    }
  }

  // A child carries strictly more blue work than a parent exactly when the
  // parent's has not saturated, and never less.
  lemma ChildOutworksParent(g: Dag, p: Id, b: Id)
    requires Consistent(g) && b in g.headers && p in g.headers[b].parents
    ensures BlueWork(g, p) <= BlueWork(g, b)
    ensures BlueWork(g, p) < BlueWork(g, b) <==> BlueWork(g, p) < U256_MAX
  {
    ParentIsLower(g, p, b);
    Unfold(g, b);
    var h := g.headers[b];
    var sp := SelectedParent(g, h);
    SelectedParentIsParent(g, h);
    assert !Below(g, sp, p);
    AddWorkGrows(g, g.data[sp].blueWork, g.data[b].blues[1..]);
  }

  // The same along any ancestry.
  lemma {:induction false} DescendantOutworksAncestor(g: Dag, a: Id, d: Id)
    requires Consistent(g) && d in g.headers && Reaches(g.headers, a, d) && a != d
    ensures BlueWork(g, a) <= BlueWork(g, d)
    ensures BlueWork(g, a) < BlueWork(g, d) <==> BlueWork(g, a) < U256_MAX
    decreases g.data[d].height
  {
    var p := ReachesSplit(g.headers, a, d);
    ParentIsLower(g, p, d);
    ChildOutworksParent(g, p, d);
    if p != a {
      DescendantOutworksAncestor(g, a, p);
    }
  }

  lemma AscendingPosition(g: Dag, q: seq<Id>, j: nat, i: nat)
    requires Ascending(g, q) && j < |q| && i < |q| && Below(g, q[j], q[i])
    ensures j < i
  {
  }

  // Short of saturation the multi-pass topological sort is the plain sort by
  // (blue work, hash).
  lemma UnsaturatedSortIsPlain(g: Dag, s: set<Id>)
    requires Consistent(g) && s <= g.headers.Keys
    requires forall x :: x in s ==> BlueWork(g, x) < U256_MAX
    ensures TopologicalSort(g, s) == Sorted(g, s)
  {
    var q := Sorted(g, s);
    SortedIsAscending(g, s);
    forall i | 0 <= i < |q| ensures Ready(g, s, q[..i], q[i]) {
      assert q[i] in Elems(q);
      forall p | p in g.headers[q[i]].parents && p in s ensures p in q[..i] {
        ChildOutworksParent(g, p, q[i]);
        assert p in Elems(q);
        var j :| 0 <= j < |q| && q[j] == p;
        AscendingPosition(g, q, j, i);
      }
    }
    TopologicalSortIsPlainSort(g, s);
  }

  /* ---------- tips ---------- */

  ghost predicate IsTip(g: Dag, b: Id) {
    b in g.headers && forall d :: d in g.headers ==> b !in g.headers[d].parents
  }

  ghost function Tips(g: Dag): set<Id> {
    set b | b in g.headers && IsTip(g, b)
  }

  function Reversed(q: seq<Id>): seq<Id> {
    if q == [] then [] else Reversed(q[1..]) + [q[0]]
  }

  // `tips`: most blue work first.
  ghost function TipList(g: Dag): seq<Id> {
    Reversed(Sorted(g, Tips(g)))
  }

  // `virtual_selected_parent`
  ghost function VirtualSelectedParent(g: Dag): Id {
    if TipList(g) == [] then g.genesis else TipList(g)[0]
  }

  lemma {:induction false} ReversedAt(q: seq<Id>, i: nat)
    requires i < |q|
    ensures |Reversed(q)| == |q| && Reversed(q)[i] == q[|q| - 1 - i]
    decreases |q|
  {
    if i < |q| - 1 {
      ReversedAt(q[1..], i);
    } else if |q| > 1 {
      ReversedAt(q[1..], 0);
    }
  }

  lemma {:induction false} TipAbove(g: Dag, b: Id) returns (t: Id)
    requires Grounded(g) && b in g.headers
    ensures IsTip(g, t) && Reaches(g.headers, b, t)
    decreases set x | x in g.headers && g.data[x].height > g.data[b].height
  {
    if IsTip(g, b) {
      t := b;
      ReachesSelf(g.headers, b);
    } else {
      var d :| d in g.headers && b in g.headers[d].parents;
      ParentIsLower(g, b, d);
      var above := set x | x in g.headers && g.data[x].height > g.data[b].height;
      assert d in above;
      t := TipAbove(g, d);
      ReachesParent(g.headers, b, d);
      ReachesTrans(g.headers, b, d, t);
    }
  }

  lemma VirtualSelectedParentIsLastTip(g: Dag)
    requires Consistent(g)
    ensures IsTip(g, VirtualSelectedParent(g))
    ensures forall t :: IsTip(g, t) && t != VirtualSelectedParent(g) ==> Below(g, t, VirtualSelectedParent(g))
  {
    var t0 := TipAbove(g, g.genesis);
    assert t0 in Tips(g);
    var q := Sorted(g, Tips(g));
    SortedIsAscending(g, Tips(g));
    ReversedAt(q, 0);
    assert q[|q| - 1] in Elems(q);
    forall t | IsTip(g, t) && t != q[|q| - 1] ensures Below(g, t, q[|q| - 1]) {
      assert t in Elems(q);
      var i :| 0 <= i < |q| && q[i] == t;
    }
  }

  // The virtual selected parent has the greatest blue work of the whole DAG, not
  // only of the tips; over unsaturated blocks it is the greatest outright.
  lemma VirtualSelectedParentIsGreatest(g: Dag, b: Id)
    requires Consistent(g) && b in g.headers
    ensures VirtualSelectedParent(g) in g.headers
    ensures BlueWork(g, b) <= BlueWork(g, VirtualSelectedParent(g))
    ensures BlueWork(g, b) < U256_MAX && b != VirtualSelectedParent(g) ==> Below(g, b, VirtualSelectedParent(g))
  {
    VirtualSelectedParentIsLastTip(g);
    var t := TipAbove(g, b);
    if t != b {
      DescendantOutworksAncestor(g, b, t);
    }
  }
}
