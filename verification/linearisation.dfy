// From topology to one execution order: the selected chain's base sequences,
// oldest first, list the whole past exactly once, parents before children.
module Linearisation {
  import opened Blocks
  import opened Reachability
  import opened Seqs
  import opened Ghostdag
  import opened Topology
  import opened BlueSets

  // `base_sequence`
  function BaseSequence(g: Dag, b: Id): seq<Id> {
    if b in g.data then g.data[b].ordered + [b] else [b]
  }

  // `selected_parent_chain`: tip first, down to genesis.
  ghost function SelectedChain(g: Dag, tip: Id): seq<Id>
    requires Grounded(g)
    decreases Height(g, tip)
  {
    if tip == g.genesis || tip !in g.data then [tip]
    else
      assert Placed(g, tip);
      [tip] + SelectedChain(g, g.data[tip].selectedParent)
  }

  // The base sequences of a tip-first chain, oldest block's first.
  function Concatenated(g: Dag, chain: seq<Id>): seq<Id>
    decreases |chain|
  {
    if chain == [] then [] else Concatenated(g, chain[1..]) + BaseSequence(g, chain[0])
  }

  ghost predicate ParentsFirst(g: Dag, q: seq<Id>) {
    forall i, p :: 0 <= i < |q| && q[i] in g.headers && p in g.headers[q[i]].parents ==> p in q[..i]
  }

  // A block's base sequence brings in exactly what its selected parent's past lacks.
  lemma BaseSequenceIsNew(g: Dag, b: Id, x: Id)
    requires Consistent(g) && b in g.headers && b != g.genesis
    ensures g.data[b].selectedParent in g.headers
    ensures x in BaseSequence(g, b) <==> Reaches(g.headers, x, b) && !Reaches(g.headers, x, g.data[b].selectedParent)
    ensures Distinct(BaseSequence(g, b))
  {
    MergedIsPastDifference(g, b, x);
    MergedIsPastDifference(g, b, b);
    ReachesSelf(g.headers, b);
    Unfold(g, b);
    TopologicalSortOrders(g, Merged(g, g.headers[b]));
    if Reaches(g.headers, b, g.data[b].selectedParent) {
      ParentIsLower(g, g.data[b].selectedParent, b);
      AncestorsAreLower(g, b, g.data[b].selectedParent);
    }
  }

  // Within a merge order, a parent is outside the merge set or earlier.
  lemma OrderedParents(g: Dag, b: Id, i: nat, p: Id)
    requires Consistent(g) && b in g.headers && b != g.genesis
    requires i < |g.data[b].ordered| && g.data[b].ordered[i] in g.headers
    requires p in g.headers[g.data[b].ordered[i]].parents && p in g.data[b].ordered
    ensures p in g.data[b].ordered[..i]
  {
    Unfold(g, b);
    var h := g.headers[b];
    var o := MergeOrder(g, h);
    TopologicalSortOrders(g, Merged(g, h));
    assert Ready(g, Merged(g, h), o[..i], o[i]);
    assert p in Elems(o);
  }

  // Within a base sequence, a parent is in the selected parent's past or earlier.
  lemma BaseSequenceParents(g: Dag, b: Id, i: nat, p: Id)
    requires Consistent(g) && b in g.headers && b != g.genesis
    requires i < |BaseSequence(g, b)| && BaseSequence(g, b)[i] in g.headers
    requires p in g.headers[BaseSequence(g, b)[i]].parents
    ensures g.data[b].selectedParent in g.headers
    ensures Reaches(g.headers, p, g.data[b].selectedParent) || p in BaseSequence(g, b)[..i]
  {
    var q, o, sp := BaseSequence(g, b), g.data[b].ordered, g.data[b].selectedParent;
    assert q[i] in q;
    BaseSequenceIsNew(g, b, q[i]);
    ReachesParent(g.headers, p, q[i]);
    ReachesTrans(g.headers, p, q[i], b);
    BaseSequenceIsNew(g, b, p);
    ParentIsLower(g, p, q[i]);
    AncestorsAreLower(g, q[i], b);
    if !Reaches(g.headers, p, sp) {
      assert p in o;
      if i < |o| {
        OrderedParents(g, b, i, p);
        assert o[..i] == q[..i];
      } else {
        assert q[..i] == o;
      }
    }
  }

  // What a chain lists, one chain block at a time.
  lemma ConcatenatedStep(g: Dag, tip: Id, head: seq<Id>)
    requires Consistent(g) && tip in g.headers && tip != g.genesis
    requires g.data[tip].selectedParent in g.headers
    requires Distinct(head) && forall x :: x in head <==> Reaches(g.headers, x, g.data[tip].selectedParent)
    ensures Distinct(head + BaseSequence(g, tip))
    ensures forall x :: x in head + BaseSequence(g, tip) <==> Reaches(g.headers, x, tip)
  {
    var sp, base := g.data[tip].selectedParent, BaseSequence(g, tip);
    Unfold(g, tip);
    SelectedParentIsParent(g, g.headers[tip]);
    ReachesParent(g.headers, sp, tip);
    forall x
      ensures x in head ==> x !in base
      ensures x in head + base <==> Reaches(g.headers, x, tip)
    {
      BaseSequenceIsNew(g, tip, x);
      if Reaches(g.headers, x, sp) { ReachesTrans(g.headers, x, sp, tip); }
    }
    BaseSequenceIsNew(g, tip, tip);
    DistinctConcat(head, base);
  }

  lemma {:induction false} ConcatenatedLists(g: Dag, tip: Id)
    requires Consistent(g) && tip in g.headers
    ensures var q := Concatenated(g, SelectedChain(g, tip));
      && Distinct(q) && q != [] && q[0] == g.genesis
      && forall x :: x in q <==> Reaches(g.headers, x, tip)
    decreases g.data[tip].height
  {
    var chain := SelectedChain(g, tip);
    if tip == g.genesis {
      assert Derived(g, tip);
      assert Concatenated(g, chain[1..]) == [];
      assert Concatenated(g, chain) == [tip];
      ReachesSelf(g.headers, tip);
      forall x | Reaches(g.headers, x, tip) ensures x == tip {
        if x != tip { var p := ReachesSplit(g.headers, x, tip); }
      }
    } else {
      assert Placed(g, tip);
      var sp := g.data[tip].selectedParent;
      ConcatenatedLists(g, sp);
      assert chain[1..] == SelectedChain(g, sp);
      ConcatenatedStep(g, tip, Concatenated(g, chain[1..]));
    }
  }

  lemma {:induction false} ConcatenatedOrders(g: Dag, tip: Id)
    requires Consistent(g) && tip in g.headers
    ensures ParentsFirst(g, Concatenated(g, SelectedChain(g, tip)))
    decreases g.data[tip].height
  {
    var chain := SelectedChain(g, tip);
    var q := Concatenated(g, chain);
    if tip == g.genesis {
      assert Derived(g, tip);
      assert Concatenated(g, chain[1..]) == [];
      assert q == [tip];
    } else {
      assert Placed(g, tip);
      var sp := g.data[tip].selectedParent;
      ConcatenatedOrders(g, sp);
      ConcatenatedLists(g, sp);
      assert chain[1..] == SelectedChain(g, sp);
      var head, base := Concatenated(g, chain[1..]), BaseSequence(g, tip);
      assert q == head + base;
      forall i, p | 0 <= i < |q| && q[i] in g.headers && p in g.headers[q[i]].parents ensures p in q[..i] {
        if i < |head| {
          assert q[..i] == head[..i] && q[i] == head[i];
        } else {
          assert q[..i] == head + base[..i - |head|] && q[i] == base[i - |head|];
          BaseSequenceParents(g, tip, i - |head|, p);
        }
      }
    }
  }

  // Exactly-once linearisation of a tip's past.
  lemma ExactlyOnceLinearisation(g: Dag, tip: Id)
    requires Consistent(g) && tip in g.headers
    ensures var q := Concatenated(g, SelectedChain(g, tip));
      && Distinct(q) && (forall x :: x in q <==> Reaches(g.headers, x, tip))
      && q != [] && q[0] == g.genesis
      && ParentsFirst(g, q)
  {
    ConcatenatedLists(g, tip);
    ConcatenatedOrders(g, tip);
  }
}
