// What a consistent store records about a block's merge set and blue set.
module BlueSets {
  import opened Blocks
  import opened Reachability
  import opened Seqs
  import opened Ghostdag
  import opened Topology

  // The blues a block's chain has accumulated: its own merge-set blues and
  // those of every chain block below it.
  ghost function BlueSet(g: Dag, b: Id): set<Id>
    requires Grounded(g) && b in g.headers
    decreases g.data[b].height
  {
    if b == g.genesis then {} else
      assert Placed(g, b);
      Elems(g.data[b].blues) + BlueSet(g, g.data[b].selectedParent)
  }

  // The blocks of a block's past, itself excluded.
  ghost predicate StrictlyReaches(hs: Headers, a: Id, d: Id) {
    a != d && Reaches(hs, a, d)
  }

  lemma Unfold(g: Dag, b: Id)
    requires Consistent(g) && b in g.headers && b != g.genesis
    ensures Placed(g, b) && Attachable(g, g.headers[b])
    ensures var h, d := g.headers[b], g.data[b];
      && h.hash == b
      && SelectedParent(g, h) in g.data
      && |Merged(g, h)| <= g.limit
      && d == Assemble(g, h, SelectedParent(g, h), MergeOrder(g, h), Coloured(g, h))
  {
    assert Derived(g, b) && Placed(g, b);
    SelectedParentIsParent(g, g.headers[b]);
  }

  // The merge set is the past less the selected parent's past.
  lemma MergedIsPastDifference(g: Dag, b: Id, x: Id)
    requires Consistent(g) && b in g.headers && b != g.genesis
    ensures g.data[b].selectedParent in g.headers
    ensures x in g.data[b].ordered <==>
            StrictlyReaches(g.headers, x, b) && !Reaches(g.headers, x, g.data[b].selectedParent)
  {
    Unfold(g, b);
    var h := g.headers[b];
    TopologicalSortOrders(g, Merged(g, h));
    assert x in g.data[b].ordered <==> x in Merged(g, h);
    if StrictlyReaches(g.headers, x, b) {
      var p := ReachesSplit(g.headers, x, b);
      assert InPast(g.headers, x, h.parents);
      AncestorsAreLower(g, x, b);
    }
    if InPast(g.headers, x, h.parents) {
      var p :| p in h.parents && Reaches(g.headers, x, p);
      ReachesStep(g.headers, x, p, b);
      AncestorsAreLower(g, x, p);
    }
  }

  // A merge-set ancestor never stands after its descendant.
  lemma {:induction false} OrderRespectsAncestry(g: Dag, h: Header, i: nat, a: Id) returns (k: nat)
    requires Attachable(g, h) && i < |MergeOrder(g, h)|
    requires a in Merged(g, h) && Reaches(g.headers, a, MergeOrder(g, h)[i])
    ensures k <= i && MergeOrder(g, h)[k] == a
    decreases i
  {
    if a == MergeOrder(g, h)[i] {
      k := i;
    } else {
      var j := ParentStandsEarlier(g, h, i, a);
      k := OrderRespectsAncestry(g, h, j, a);
    }
  }

  lemma ParentStandsEarlier(g: Dag, h: Header, i: nat, a: Id) returns (j: nat)
    requires Attachable(g, h) && i < |MergeOrder(g, h)|
    requires a in Merged(g, h) && Reaches(g.headers, a, MergeOrder(g, h)[i]) && a != MergeOrder(g, h)[i]
    ensures j < i && Reaches(g.headers, a, MergeOrder(g, h)[j])
  {
    var q, m := MergeOrder(g, h), Merged(g, h);
    TopologicalSortOrders(g, m);
    assert q[i] in Elems(q);
    var p := ReachesSplit(g.headers, a, q[i]);
    StaysMerged(g, h, a, p, q[i]);
    assert Ready(g, m, q[..i], q[i]);
    j :| 0 <= j < i && q[j] == p;
  }

  // Between two merge-set blocks there are only merge-set blocks.
  lemma StaysMerged(g: Dag, h: Header, a: Id, p: Id, d: Id)
    requires Attachable(g, h) && a in Merged(g, h) && d in Merged(g, h)
    requires Reaches(g.headers, a, p) && p in g.headers[d].parents
    ensures p in Merged(g, h)
  {
    SelectedParentIsParent(g, h);
    var sp := SelectedParent(g, h);
    var t :| t in h.parents && Reaches(g.headers, d, t);
    ReachesParent(g.headers, p, d);
    ReachesTrans(g.headers, p, d, t);
    AncestorsAreLower(g, p, t);
    if Reaches(g.headers, p, sp) {
      ReachesTrans(g.headers, a, p, sp);
    }
  }

  // Every coloured block is the selected parent or a merge-set block, listed once.
  lemma {:induction false} ColourAllSplits(g: Dag, sp: Id, candidates: seq<Id>, col: Colouring)
    requires Grounded(g) && sp in g.headers
    ensures var r := ColourAll(g, sp, candidates, col);
      multiset(r.blues) + multiset(r.reds) == multiset(col.blues) + multiset(col.reds) + multiset(candidates)
    decreases |candidates|
  {
    if candidates == [] {
    } else {
      var c := candidates[0];
      assert candidates == [c] + candidates[1..];
      ColourAllSplits(g, sp, candidates[1..], Colour(col, c, ColourCandidate(g, c, sp, col.blues, col.sizes)));
    }
  }

  lemma BluesAreMerged(g: Dag, b: Id)
    requires Consistent(g) && b in g.headers && b != g.genesis
    ensures g.data[b].blues != [] && g.data[b].blues[0] == g.data[b].selectedParent
    ensures multiset(g.data[b].blues) + multiset(g.data[b].reds)
            == multiset([g.data[b].selectedParent] + g.data[b].ordered)
    ensures forall x :: x in g.data[b].blues ==> x == g.data[b].selectedParent || x in g.data[b].ordered
    ensures Distinct(g.data[b].blues)
  {
    Unfold(g, b);
    var h := g.headers[b];
    var sp, q := SelectedParent(g, h), MergeOrder(g, h);
    SelectedParentIsParent(g, h);
    ColourAllKeeps(g, sp, q, InitialColouring(sp));
    ColourAllSplits(g, sp, q, InitialColouring(sp));
    var r := Coloured(g, h);
    PartOf(r.blues, r.reds, sp, q);
    TopologicalSortOrders(g, Merged(g, h));
    ReachesSelf(g.headers, sp);
    assert sp !in Merged(g, h);
    OnceEach(r.blues, r.reds, sp, q);
  }

  lemma PartOf(blues: seq<Id>, reds: seq<Id>, sp: Id, q: seq<Id>)
    requires multiset(blues) + multiset(reds) == multiset([sp]) + multiset([]) + multiset(q)
    ensures multiset(blues) + multiset(reds) == multiset([sp] + q)
    ensures forall x :: x in blues ==> x == sp || x in q
  {
    assert multiset([sp]) + multiset([]) == multiset([sp]);
    forall x | x in blues ensures x == sp || x in q {
      assert x in multiset(blues) + multiset(reds);
    }
  }

  lemma OnceEach(blues: seq<Id>, reds: seq<Id>, sp: Id, q: seq<Id>)
    requires multiset(blues) + multiset(reds) == multiset([sp] + q)
    requires Distinct(q) && sp !in q
    ensures Distinct(blues)
  {
    DistinctMultiset([sp] + q);
    forall i, j | 0 <= i < j < |blues| ensures blues[i] != blues[j] {
      CountedTwice(blues, i, j);
      assert multiset([sp] + q)[blues[i]] >= multiset(blues)[blues[i]];
    }
  }

  // Blues lie strictly in the past, and a block's own blues are new to its chain.
  lemma {:induction false} BlueIsInPast(g: Dag, b: Id, x: Id)
    requires Consistent(g) && b in g.headers && x in BlueSet(g, b)
    ensures StrictlyReaches(g.headers, x, b) && x in g.headers
    decreases g.data[b].height
  {
    BluesAreMerged(g, b);
    assert Placed(g, b);
    var sp := g.data[b].selectedParent;
    ReachesParent(g.headers, sp, b);
    if x in BlueSet(g, sp) {
      BlueIsInPast(g, sp, x);
      ReachesTrans(g.headers, x, sp, b);
    } else if x != sp {
      MergedIsPastDifference(g, b, x);
    }
    AncestorsAreLower(g, x, b);
    ParentIsLower(g, sp, b);
    if x in BlueSet(g, sp) {
      AncestorsAreLower(g, x, sp);
    }
  }

  lemma OwnBluesAreNew(g: Dag, b: Id)
    requires Consistent(g) && b in g.headers && b != g.genesis
    ensures g.data[b].selectedParent in g.headers
    ensures Elems(g.data[b].blues) !! BlueSet(g, g.data[b].selectedParent)
    ensures BlueSet(g, b) == Elems(g.data[b].blues) + BlueSet(g, g.data[b].selectedParent)
  {
    BluesAreMerged(g, b);
    assert Placed(g, b);
    var sp := g.data[b].selectedParent;
    forall x | x in Elems(g.data[b].blues) ensures x !in BlueSet(g, sp) {
      MergedIsPastDifference(g, b, x);
      if x in BlueSet(g, sp) { BlueIsInPast(g, sp, x); }
    }
  }

  // Blue score counts the blue set.
  lemma {:induction false} BlueScoreCountsBlues(g: Dag, b: Id)
    requires Consistent(g) && b in g.headers
    ensures g.data[b].blueScore == |BlueSet(g, b)|
    decreases g.data[b].height
  {
    assert Derived(g, b);
    if b != g.genesis {
      Unfold(g, b);
      BlueScoreCountsBlues(g, g.data[b].selectedParent);
      OwnBluesAreNew(g, b);
      BluesAreMerged(g, b);
      DistinctCount(g.data[b].blues);
    }
  }
}
