// The chain an executor has run to reach a tip, and what a walk between two
// tips, cut short or not, says about it.
module ExecutedChains {
  import opened Blocks
  import opened Seqs
  import opened Ghostdag
  import opened Linearisation
  import opened BlueWorks
  import opened Reorg

  // The selected chain above genesis, oldest first.
  ghost function ExecutedChain(g: Dag, tip: Id): seq<Id>
    requires Grounded(g)
    decreases Height(g, tip)
  {
    if tip == g.genesis || tip !in g.data then []
    else
      assert Placed(g, tip);
      ExecutedChain(g, g.data[tip].selectedParent) + [tip]
  }

  lemma {:induction false} ExecutedChainHeld(g: Dag, tip: Id)
    requires Grounded(g) && tip in g.headers
    ensures (forall x :: x in ExecutedChain(g, tip) ==> x in g.headers) && g.genesis !in ExecutedChain(g, tip)
    ensures tip
            == (if ExecutedChain(g, tip) == [] then g.genesis else ExecutedChain(g, tip)[|ExecutedChain(g, tip)| - 1])
    ensures Reversed(SelectedChain(g, tip)) == [g.genesis] + ExecutedChain(g, tip)
    decreases g.data[tip].height
  {
    if tip != g.genesis {
      assert Placed(g, tip);
      var sp := g.data[tip].selectedParent;
      ExecutedChainHeld(g, sp);
      assert SelectedChain(g, tip)[1..] == SelectedChain(g, sp);
      assert [g.genesis] + ExecutedChain(g, sp) + [tip] == [g.genesis] + ExecutedChain(g, tip);
    } else {
      assert SelectedChain(g, tip)[1..] == [];
    }
  }

  lemma {:induction false} ExecutedChainDistinct(g: Dag, tip: Id)
    requires Grounded(g) && tip in g.headers
    ensures Distinct(ExecutedChain(g, tip)) && forall x :: x in ExecutedChain(g, tip) ==> Height(g, x) <= Height(g, tip)
    decreases g.data[tip].height
  {
    if tip != g.genesis {
      assert Placed(g, tip);
      ExecutedChainDistinct(g, g.data[tip].selectedParent);
      DistinctConcat(ExecutedChain(g, g.data[tip].selectedParent), [tip]);
    }
  }

  lemma {:induction false} ReversedConcat(a: seq<Id>, b: seq<Id>)
    ensures Reversed(a + b) == Reversed(b) + Reversed(a)
    decreases |a|
  {
    if a == [] {
      assert a + b == b;
    } else {
      assert (a + b)[1..] == a[1..] + b;
      ReversedConcat(a[1..], b);
    }
  }

  lemma ExecutedAbove(g: Dag, a: Id, above: seq<Id>, c: Id)
    requires Grounded(g) && a in g.headers && c in g.headers && SelectedChain(g, a) == above + SelectedChain(g, c)
    ensures ExecutedChain(g, a) == ExecutedChain(g, c) + Reversed(above)
  {
    ExecutedChainHeld(g, a);
    ExecutedChainHeld(g, c);
    ReversedConcat(above, SelectedChain(g, c));
    WithoutHead(g.genesis, ExecutedChain(g, a), ExecutedChain(g, c), Reversed(above));
  }

  lemma WithoutHead(x: Id, p: seq<Id>, q: seq<Id>, r: seq<Id>)
    requires [x] + p == [x] + q + r
    ensures p == q + r
  {
    assert ([x] + p)[1..] == p;
    assert ([x] + q + r)[1..] == q + r;
  }

  lemma AboveHeld(g: Dag, a: Id, above: seq<Id>, c: Id)
    requires Grounded(g) && a in g.headers && SelectedChain(g, a) == above + SelectedChain(g, c)
    ensures forall x :: x in above ==> x in g.headers
  {
    ChainDescends(g, a);
    forall x | x in above ensures x in g.headers {
      var i := IndexOf(above, x);
      assert SelectedChain(g, a)[i] == x;
      assert i > 0 ==> x == SelectedChain(g, a)[1..][i - 1];
    }
  }

  /* ---------- where the walk stops ---------- */

  // The cursor left of the blocks it has passed.
  function Cursor(g: Dag, tip: Id, passed: seq<Id>): Id {
    if passed == [] then tip
    else if passed[|passed| - 1] in g.data then g.data[passed[|passed| - 1]].selectedParent
    else passed[|passed| - 1]
  }

  // The two cursors met: the walk was not cut short by its guard.
  predicate Met(g: Dag, oldTip: Id, newTip: Id, r: ChainReorg) {
    Cursor(g, oldTip, r.removed) == Cursor(g, newTip, Reversed(r.added))
  }

  // Taking the first block off a chain and the segment it tops.
  lemma OneDown(g: Dag, a: Id, above: seq<Id>, c: Id)
    requires Grounded(g) && a in g.headers && c in g.headers && SelectedChain(g, a) == above + SelectedChain(g, c)
    requires above != []
    ensures above[0] == a && a in g.data && g.data[a].selectedParent in g.headers
    ensures SelectedChain(g, g.data[a].selectedParent) == above[1..] + SelectedChain(g, c)
    ensures Height(g, g.data[a].selectedParent) < Height(g, a)
  {
    NothingAbove(g, a, above, c);
    GenesisOnce(g, a, above, c);
    assert Placed(g, a);
    assert SelectedChain(g, a)[1..] == SelectedChain(g, g.data[a].selectedParent);
    assert (above + SelectedChain(g, c))[1..] == above[1..] + SelectedChain(g, c);
  }

  lemma {:induction false} CursorAt(g: Dag, a: Id, above: seq<Id>, c: Id, i: nat)
    requires Grounded(g) && a in g.headers && c in g.headers && SelectedChain(g, a) == above + SelectedChain(g, c)
    requires i <= |above|
    ensures Cursor(g, a, above[..i]) == if i < |above| then above[i] else c
    decreases i
  {
    NothingAbove(g, a, above, c);
    if i > 0 {
      OneDown(g, a, above, c);
      var sp, rest := g.data[a].selectedParent, above[1..];
      CursorAt(g, sp, rest, c, i - 1);
      CursorSteps(g, a, above[..i], rest[..i - 1]);
    }
  }

  lemma CursorSteps(g: Dag, a: Id, passed: seq<Id>, rest: seq<Id>)
    requires passed == [a] + rest && a in g.data
    ensures Cursor(g, a, passed) == Cursor(g, g.data[a].selectedParent, rest)
  {
    assert rest != [] ==> passed[|passed| - 1] == rest[|rest| - 1];
  }

  lemma MetExactly(g: Dag, a: Id, b: Id, above: seq<Id>, below: seq<Id>, c: Id, i: nat, j: nat)
    requires Consistent(g) && a in g.headers && b in g.headers && SplitAt(g, a, b, above, below, c)
    requires i <= |above| && j <= |below|
    ensures Cursor(g, a, above[..i]) == Cursor(g, b, below[..j]) <==> i == |above| && j == |below|
  {
    CursorAt(g, a, above, c, i);
    CursorAt(g, b, below, c, j);
    ForkIsOutside(g, a, above, c);
    ForkIsOutside(g, b, below, c);
    if i < |above| && j < |below| {
      assert above[i] in Elems(above) && below[j] in Elems(below);
    }
  }

  lemma {:induction false} ForkIsOutside(g: Dag, a: Id, above: seq<Id>, c: Id)
    requires Grounded(g) && a in g.headers && c in g.headers && SelectedChain(g, a) == above + SelectedChain(g, c)
    ensures c !in above
    decreases |above|
  {
    NothingAbove(g, a, above, c);
    if above != [] {
      OneDown(g, a, above, c);
      ForkIsOutside(g, g.data[a].selectedParent, above[1..], c);
    }
  }

  /* ---------- a walk cut anywhere ---------- */

  lemma CutReversed(base: seq<Id>, above: seq<Id>, high: seq<Id>, low: seq<Id>)
    requires above == high + low
    ensures base + Reversed(above) == base + Reversed(low) + Reversed(high)
  {
    ReversedConcat(high, low);
    Regroup(base, Reversed(low), Reversed(high));
  }

  lemma Halves(q: seq<Id>, i: nat)
    requires i <= |q|
    ensures q == q[..i] + q[i..]
  {
  }

  lemma Regroup(a: seq<Id>, b: seq<Id>, c: seq<Id>)
    ensures a + (b + c) == a + b + c
  {
  }

  // Only the whole of both segments leads from one chain to the other.
  lemma SameChainOnlyWhole(base: seq<Id>, above: seq<Id>, below: seq<Id>, i: nat, j: nat)
    requires i <= |above| && j <= |below| && Elems(above) !! Elems(below)
    ensures base + Reversed(above[i..]) + Reversed(below[..j]) == base + Reversed(below)
            <==> i == |above| && j == |below|
  {
    var left, right := Reversed(above[i..]) + Reversed(below[..j]), Reversed(below);
    assert base + Reversed(above[i..]) + Reversed(below[..j]) == base + left;
    assert base + left == base + right ==> left == right by {
      if base + left == base + right {
        assert (base + left)[|base|..] == left && (base + right)[|base|..] == right;
      }
    }
    ReversedTwice(above[i..]);
    ReversedTwice(below[..j]);
    ReversedTwice(below);
    if i < |above| {
      ReversedAt(above[i..], 0);
      if below != [] {
        ReversedAt(below, 0);
        assert above[|above| - 1] in Elems(above) && below[|below| - 1] in Elems(below);
        assert left[0] != right[0];
      }
    } else {
      assert Reversed(above[i..]) == [];
      assert left == Reversed(below[..j]);
      assert j == |below| ==> below[..j] == below;
    }
  }

  // A walk that passed `i` blocks of one segment and `j` of the other.
  lemma WalkCut(g: Dag, tip: Id, newTip: Id, above: seq<Id>, below: seq<Id>, c: Id, i: nat, j: nat)
    requires Consistent(g) && tip in g.headers && newTip in g.headers
    requires SplitAt(g, tip, newTip, above, below, c)
    requires i <= |above| && j <= |below|
    requires ReorgBetween(g, tip, newTip) == ChainReorg(above[..i], Reversed(below[..j]))
    ensures var kept := ExecutedChain(g, c) + Reversed(above[i..]);
      && ExecutedChain(g, tip) == kept + Reversed(above[..i])
      && (kept + Reversed(below[..j]) == ExecutedChain(g, newTip) <==> i == |above| && j == |below|)
    ensures forall x :: x in Reversed(below[..j]) ==> x in g.headers && x != g.genesis
    ensures Met(g, tip, newTip, ReorgBetween(g, tip, newTip)) <==> i == |above| && j == |below|
  {
    ExecutedAbove(g, tip, above, c);
    ExecutedAbove(g, newTip, below, c);
    Halves(above, i);
    CutReversed(ExecutedChain(g, c), above, above[..i], above[i..]);
    SameChainOnlyWhole(ExecutedChain(g, c), above, below, i, j);
    AboveHeld(g, newTip, below, c);
    SharedIsBelow(g, tip, newTip, above, below, c);
    ReversedElems(below[..j]);
    ReversedTwice(below[..j]);
    MetExactly(g, tip, newTip, above, below, c, i, j);
  }
}
