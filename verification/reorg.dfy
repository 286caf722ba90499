// Selected-chain reorganisation: the lockstep walk between two chains.
module Reorg {
  import opened Blocks
  import opened Seqs
  import opened Ghostdag
  import opened Linearisation
  import opened BlueWorks

  const MAX_REORG_WALK: nat := 100_000_000

  // `removed` is tip first, the undo order; `added` oldest first, the execution order.
  datatype ChainReorg = ChainReorg(removed: seq<Id>, added: seq<Id>)

  // The blocks the two cursors pass, both tip first, in at most `steps` steps.
  function Walk(g: Dag, oldCursor: Id, newCursor: Id, steps: nat): (r: (seq<Id>, seq<Id>))
    ensures |r.0| + |r.1| <= steps
    decreases steps
  {
    if oldCursor == newCursor || steps == 0 then ([], [])
    else if Height(g, oldCursor) >= Height(g, newCursor) then
      if oldCursor !in g.data || oldCursor == g.data[oldCursor].selectedParent then ([oldCursor], [])
      else
        var (removed, added) := Walk(g, g.data[oldCursor].selectedParent, newCursor, steps - 1);
        ([oldCursor] + removed, added)
    else
      if newCursor !in g.data || newCursor == g.data[newCursor].selectedParent then ([], [newCursor])
      else
        var (removed, added) := Walk(g, oldCursor, g.data[newCursor].selectedParent, steps - 1);
        (removed, [newCursor] + added)
  }

  // What `compute_reorg` returns.
  function ReorgBetween(g: Dag, oldTip: Id, newTip: Id): ChainReorg {
    var (removed, added) := Walk(g, oldTip, newTip, MAX_REORG_WALK);
    ChainReorg(removed, Reversed(added))
  }

  // `compute_reorg`
  method ComputeReorg(g: Dag, oldTip: Id, newTip: Id) returns (r: ChainReorg)
    ensures r == ReorgBetween(g, oldTip, newTip)
  {
    var removed: seq<Id>, added: seq<Id> := [], [];
    var oldCursor, newCursor := oldTip, newTip;
    var guard := 0;
    ghost var goal := Walk(g, oldTip, newTip, MAX_REORG_WALK);
    assert [] + goal.0 == goal.0 && [] + goal.1 == goal.1;
    while oldCursor != newCursor
      invariant guard <= MAX_REORG_WALK
      invariant goal == Resumed(removed, added, Walk(g, oldCursor, newCursor, MAX_REORG_WALK - guard))
      decreases MAX_REORG_WALK - guard
    {
      guard := guard + 1;
      if guard > MAX_REORG_WALK {
        break;
      }
      ghost var removed0, added0 := removed, added;
      if Height(g, oldCursor) >= Height(g, newCursor) {
        removed := removed + [oldCursor];
        if oldCursor !in g.data || oldCursor == g.data[oldCursor].selectedParent {
          assert added + [] == added;
          assert goal == (removed, added);
          break;
        }
        ResumeRemoved(removed0, added, oldCursor,
            Walk(g, g.data[oldCursor].selectedParent, newCursor, MAX_REORG_WALK - guard));
        oldCursor := g.data[oldCursor].selectedParent;
      } else {
        added := added + [newCursor];
        if newCursor !in g.data || newCursor == g.data[newCursor].selectedParent {
          assert removed + [] == removed;
          assert goal == (removed, added);
          break;
        }
        ResumeAdded(removed, added0, newCursor,
            Walk(g, oldCursor, g.data[newCursor].selectedParent, MAX_REORG_WALK - guard));
        newCursor := g.data[newCursor].selectedParent;
      }
    }
    assert removed + [] == removed && added + [] == added;
    assert goal == (removed, added);
    r := ChainReorg(removed, Reversed(added));
  }

  // What has been passed so far, then what a walk passes.
  function Resumed(removed: seq<Id>, added: seq<Id>, rest: (seq<Id>, seq<Id>)): (seq<Id>, seq<Id>) {
    (removed + rest.0, added + rest.1)
  }

  lemma ResumeRemoved(removed: seq<Id>, added: seq<Id>, x: Id, rest: (seq<Id>, seq<Id>))
    ensures Resumed(removed, added, ([x] + rest.0, rest.1)) == Resumed(removed + [x], added, rest)
  {
    assert removed + ([x] + rest.0) == removed + [x] + rest.0;
  }

  lemma ResumeAdded(removed: seq<Id>, added: seq<Id>, x: Id, rest: (seq<Id>, seq<Id>))
    ensures Resumed(removed, added, (rest.0, [x] + rest.1)) == Resumed(removed, added + [x], rest)
  {
    assert added + ([x] + rest.1) == added + [x] + rest.1;
  }

  /* ---------- chains ---------- */

  // A chain descends: every block after the first is lower.
  lemma {:induction false} ChainDescends(g: Dag, tip: Id)
    requires Grounded(g) && tip in g.headers
    ensures SelectedChain(g, tip) != [] && SelectedChain(g, tip)[0] == tip
    ensures forall x :: x in SelectedChain(g, tip)[1..] ==> x in g.headers && Height(g, x) < Height(g, tip)
    ensures g.genesis in SelectedChain(g, tip)
    decreases g.data[tip].height
  {
    if tip != g.genesis {
      assert Placed(g, tip);
      var sp := g.data[tip].selectedParent;
      ChainDescends(g, sp);
      var rest := SelectedChain(g, sp);
      assert SelectedChain(g, tip)[1..] == rest;
      assert rest == [sp] + rest[1..];
    }
  }

  // Two chains split at `c`: what each has above it, with nothing shared.
  ghost predicate SplitAt(g: Dag, a: Id, b: Id, above: seq<Id>, below: seq<Id>, c: Id)
    requires Grounded(g)
  {
    && c in g.headers
    && SelectedChain(g, a) == above + SelectedChain(g, c)
    && SelectedChain(g, b) == below + SelectedChain(g, c)
    && Elems(above) !! Elems(below)
  }

  lemma NothingAbove(g: Dag, a: Id, above: seq<Id>, c: Id)
    requires Grounded(g) && a in g.headers && c in g.headers && SelectedChain(g, a) == above + SelectedChain(g, c)
    ensures above == [] ==> a == c
    ensures above != [] ==> a in above && above[0] == a && Height(g, c) < Height(g, a)
  {
    ChainDescends(g, a);
    ChainDescends(g, c);
    var chain := above + SelectedChain(g, c);
    if above != [] {
      assert chain[0] == above[0];
      assert chain[1..][|above| - 1] == c;
    } else {
      assert chain == SelectedChain(g, c);
    }
  }

  // Taking one block off the side whose tip is at least as high.
  lemma SplitStep(g: Dag, a: Id, b: Id, above: seq<Id>, below: seq<Id>, c: Id)
    requires Grounded(g) && a in g.headers && b in g.headers && a != b
    requires SplitAt(g, a, b, above, below, c) && Height(g, a) >= Height(g, b)
    ensures above != [] && above[0] == a && a != g.genesis && a in g.data
    ensures g.data[a].selectedParent in g.headers && g.data[a].selectedParent != a
    ensures SplitAt(g, g.data[a].selectedParent, b, above[1..], below, c)
  {
    NothingAbove(g, a, above, c);
    NothingAbove(g, b, below, c);
    OneGenesis(g, a, b);
    assert Placed(g, a);
    assert SelectedChain(g, a)[1..] == SelectedChain(g, g.data[a].selectedParent);
    assert (above + SelectedChain(g, c))[1..] == above[1..] + SelectedChain(g, c);
    assert Elems(above[1..]) <= Elems(above);
  }

  lemma OneGenesis(g: Dag, a: Id, b: Id)
    requires Grounded(g) && a in g.headers && b in g.headers && a != b && Height(g, a) >= Height(g, b)
    ensures a != g.genesis
  {
    GenesisReachesAll(g, b);
    AncestorsAreLower(g, g.genesis, b);
  }

  lemma SplitSwaps(g: Dag, a: Id, b: Id, above: seq<Id>, below: seq<Id>, c: Id)
    requires Grounded(g) && SplitAt(g, a, b, above, below, c)
    ensures SplitAt(g, b, a, below, above, c)
  {
  }

  lemma SplitOfSame(g: Dag, a: Id, above: seq<Id>, below: seq<Id>, c: Id)
    requires Grounded(g) && a in g.headers && SplitAt(g, a, a, above, below, c)
    ensures above == [] && below == []
  {
    assert |above| == |below|;
    NothingAbove(g, a, above, c);
    NothingAbove(g, a, below, c);
    assert a in above <==> a in Elems(above);
    assert a in below <==> a in Elems(below);
  }

  // The walk passes the two segments above the split from their tips down: all
  // of both when their length is within the step bound, else just as many blocks.
  lemma {:induction false} WalkFindsSplit(g: Dag, a: Id, b: Id, above: seq<Id>, below: seq<Id>, c: Id,
      steps: nat) returns (i: nat, j: nat)
    requires Consistent(g) && a in g.headers && b in g.headers && SplitAt(g, a, b, above, below, c)
    ensures i <= |above| && j <= |below| && Walk(g, a, b, steps) == (above[..i], below[..j])
    ensures i + j == if |above| + |below| <= steps then |above| + |below| else steps
    decreases steps
  {
    i, j := 0, 0;
    if a == b {
      SplitOfSame(g, a, above, below, c);
    } else if steps > 0 && Height(g, a) >= Height(g, b) {
      SplitStep(g, a, b, above, below, c);
      i, j := WalkFindsSplit(g, g.data[a].selectedParent, b, above[1..], below, c, steps - 1);
      assert [a] + above[1..][..i] == above[..i + 1];
      i := i + 1;
    } else if steps > 0 {
      SplitSwaps(g, a, b, above, below, c);
      SplitStep(g, b, a, below, above, c);
      SplitSwaps(g, g.data[b].selectedParent, a, below[1..], above, c);
      i, j := WalkFindsSplit(g, a, g.data[b].selectedParent, above, below[1..], c, steps - 1);
      assert [b] + below[1..][..j] == below[..j + 1];
      j := j + 1;
    }
  }

  // Genesis is on every chain, so every two chains split somewhere.
  lemma {:induction false} ChainsSplit(g: Dag, a: Id, b: Id) returns (above: seq<Id>, below: seq<Id>, c: Id)
    requires Grounded(g) && a in g.headers && b in g.headers
    ensures SplitAt(g, a, b, above, below, c)
    decreases Height(g, a) + Height(g, b)
  {
    if a == b {
      above, below, c := [], [], a;
      assert [] + SelectedChain(g, a) == SelectedChain(g, a);
    } else if Height(g, a) >= Height(g, b) {
      above, below, c := SplitHigher(g, a, b);
    } else {
      below, above, c := SplitHigher(g, b, a);
    }
  }

  lemma {:induction false} SplitHigher(g: Dag, a: Id, b: Id) returns (above: seq<Id>, below: seq<Id>, c: Id)
    requires Grounded(g) && a in g.headers && b in g.headers && a != b && Height(g, a) >= Height(g, b)
    ensures SplitAt(g, a, b, above, below, c)
    decreases Height(g, a) + Height(g, b), 0
  {
    OneGenesis(g, a, b);
    assert Placed(g, a);
    var sp := g.data[a].selectedParent;
    var rest;
    rest, below, c := ChainsSplit(g, sp, b);
    above := [a] + rest;
    assert SelectedChain(g, a) == [a] + (rest + SelectedChain(g, c));
    ChainDescends(g, b);
    assert SelectedChain(g, b) == [b] + SelectedChain(g, b)[1..];
    assert forall x :: x in below ==> x in SelectedChain(g, b);
  }

  // Reorg exactness. For any two held blocks there is one block where their
  // chains part; within the step bound the walk returns exactly the two segments
  // above it, disjoint, never genesis, and every block the chains share is on
  // that block's own chain. Swapping the tips gives the mirror image. Beyond the
  // bound it stops with that many blocks.
  lemma ReorgExactness(g: Dag, oldTip: Id, newTip: Id) returns (fork: Id, segment: nat)
    requires Consistent(g) && oldTip in g.headers && newTip in g.headers
    ensures var r := ReorgBetween(g, oldTip, newTip);
      && (segment <= MAX_REORG_WALK ==>
            && |r.removed| + |r.added| == segment
            && SplitAt(g, oldTip, newTip, r.removed, Reversed(r.added), fork)
            && g.genesis !in r.removed && g.genesis !in r.added
            && (forall x :: x in SelectedChain(g, oldTip) && x in SelectedChain(g, newTip) ==> x in SelectedChain(g, fork))
            && ReorgBetween(g, newTip, oldTip) == ChainReorg(Reversed(r.added), Reversed(r.removed)))
      && (segment > MAX_REORG_WALK ==> |r.removed| + |r.added| == MAX_REORG_WALK)
  {
    var above, below;
    above, below, fork := ChainsSplit(g, oldTip, newTip);
    segment := |above| + |below|;
    var i, j := WalkFindsSplit(g, oldTip, newTip, above, below, fork, MAX_REORG_WALK);
    ReversedTwice(below[..j]);
    if segment <= MAX_REORG_WALK {
      assert above[..i] == above && below[..j] == below;
      SplitSwaps(g, oldTip, newTip, above, below, fork);
      var j', i' := WalkFindsSplit(g, newTip, oldTip, below, above, fork, MAX_REORG_WALK);
      assert above[..i'] == above && below[..j'] == below;
      SharedIsBelow(g, oldTip, newTip, above, below, fork);
      ReversedElems(below);
    }
  }

  lemma SharedIsBelow(g: Dag, a: Id, b: Id, above: seq<Id>, below: seq<Id>, c: Id)
    requires Grounded(g) && a in g.headers && b in g.headers && SplitAt(g, a, b, above, below, c)
    ensures forall x :: x in SelectedChain(g, a) && x in SelectedChain(g, b) ==> x in SelectedChain(g, c)
    ensures g.genesis !in above && g.genesis !in below
  {
    ChainDescends(g, c);
    forall x | x in SelectedChain(g, a) && x in SelectedChain(g, b) ensures x in SelectedChain(g, c) {
      assert x in above ==> x in Elems(above);
      assert x in below ==> x in Elems(below);
    }
    GenesisOnce(g, a, above, c);
    GenesisOnce(g, b, below, c);
  }

  lemma {:induction false} GenesisOnce(g: Dag, a: Id, above: seq<Id>, c: Id)
    requires Grounded(g) && a in g.headers && c in g.headers && SelectedChain(g, a) == above + SelectedChain(g, c)
    ensures g.genesis !in above
    decreases |above|
  {
    if above != [] {
      ChainDescends(g, a);
      ChainDescends(g, c);
      assert SelectedChain(g, a)[1..] == above[1..] + SelectedChain(g, c);
      assert g.genesis in SelectedChain(g, a)[1..];
      assert Placed(g, a);
      GenesisOnce(g, g.data[a].selectedParent, above[1..], c);
    }
  }

  lemma {:induction false} ReversedAppend(q: seq<Id>, x: Id)
    ensures Reversed(q + [x]) == [x] + Reversed(q)
    decreases |q|
  {
    if q == [] {
    } else {
      assert (q + [x])[1..] == q[1..] + [x];
      ReversedAppend(q[1..], x);
    }
  }

  lemma {:induction false} ReversedTwice(q: seq<Id>)
    ensures Reversed(Reversed(q)) == q && |Reversed(q)| == |q|
    decreases |q|
  {
    if q == [] {
    } else {
      ReversedTwice(q[1..]);
      ReversedAppend(Reversed(q[1..]), q[0]);
    }
  }

  lemma {:induction false} ReversedElems(q: seq<Id>)
    ensures forall x :: x in Reversed(q) <==> x in q
    decreases |q|
  {
    if q == [] {
    } else {
      ReversedElems(q[1..]);
      assert forall x :: x in q <==> x == q[0] || x in q[1..];
    }
  }
}
