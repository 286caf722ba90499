// GHOSTDAG data is a function of a block's past: stores that hold the same
// blocks hold the same data, however the blocks arrived.
module OrderIndependence {
  import opened Blocks
  import opened Reachability
  import opened Compact
  import opened Seqs
  import opened Ghostdag
  import opened Topology

  // Two stores agree on a parent-closed set of blocks.
  ghost predicate Agree(g: Dag, g': Dag, s: set<Id>) {
    && Grounded(g) && Grounded(g')
    && g.genesis == g'.genesis && g.k == g'.k && g.limit == g'.limit
    && SharedPast(g.headers, g'.headers, s)
    && forall x :: x in s ==> g.data[x] == g'.data[x]
  }

  lemma {:induction false} SelectParentLocal(g: Dag, g': Dag, s: set<Id>, best: Id, rest: seq<Id>)
    requires Agree(g, g', s) && best in s && Elems(rest) <= s
    ensures SelectParent(g, best, rest) == SelectParent(g', best, rest)
    decreases |rest|
  {
    if rest == [] {
    } else {
      assert rest[0] in Elems(rest) && Elems(rest[1..]) <= Elems(rest);
      SelectParentLocal(g, g', s, if Below(g, best, rest[0]) then rest[0] else best, rest[1..]);
    }
  }

  lemma MergeSetLocal(g: Dag, g': Dag, s: set<Id>, parents: seq<Id>, sp: Id)
    requires Agree(g, g', s) && Elems(parents) <= s && sp in s
    ensures MergeSet(g, parents, sp) == MergeSet(g', parents, sp) <= s
  {
    forall x
      ensures x in MergeSet(g, parents, sp) <==> x in MergeSet(g', parents, sp)
      ensures x in MergeSet(g, parents, sp) ==> x in s
    {
      ReachesLocal(g.headers, g'.headers, s, x, sp);
      forall p | p in parents
        ensures Reaches(g.headers, x, p) <==> Reaches(g'.headers, x, p)
        ensures Reaches(g.headers, x, p) ==> x in s
      {
        assert p in Elems(parents);
        ReachesLocal(g.headers, g'.headers, s, x, p);
      }
    }
  }

  lemma SortedLocal(g: Dag, g': Dag, s: set<Id>, m: set<Id>)
    requires Agree(g, g', s) && m <= s
    ensures Sorted(g, m) == Sorted(g', m)
  {
    SortedIsAscending(g, m);
    var q := Sorted(g, m);
    forall i, j | 0 <= i < j < |q| ensures Below(g', q[i], q[j]) {
      assert q[i] in Elems(q) && q[j] in Elems(q);
    }
    AscendingIsSorted(g', q, m);
  }

  lemma {:induction false} SweepLocal(g: Dag, g': Dag, s: set<Id>, members: set<Id>, remaining: seq<Id>, out: seq<Id>,
      left: seq<Id>)
    requires Agree(g, g', s) && Elems(remaining) <= s
    ensures Sweep(g, members, remaining, out, left) == Sweep(g', members, remaining, out, left)
    ensures Elems(Sweep(g, members, remaining, out, left).1) <= Elems(remaining) + Elems(left)
    decreases |remaining|
  {
    if remaining == [] {
    } else {
      var b := remaining[0];
      assert b in Elems(remaining) && Elems(remaining[1..]) <= Elems(remaining);
      if Ready(g, members, out, b) {
        SweepLocal(g, g', s, members, remaining[1..], out + [b], left);
      } else {
        SweepLocal(g, g', s, members, remaining[1..], out, left + [b]);
      }
    }
  }

  lemma {:induction false} SweepsLocal(g: Dag, g': Dag, s: set<Id>, members: set<Id>, remaining: seq<Id>, out: seq<Id>)
    requires Agree(g, g', s) && Elems(remaining) <= s
    ensures Sweeps(g, members, remaining, out) == Sweeps(g', members, remaining, out)
    decreases |remaining|
  {
    if remaining == [] {
    } else {
      SweepLocal(g, g', s, members, remaining, out, []);
      var (o, l) := Sweep(g, members, remaining, out, []);
      if |l| < |remaining| {
        SweepsLocal(g, g', s, members, l, o);
      }
    }
  }

  lemma TopologicalSortLocal(g: Dag, g': Dag, s: set<Id>, m: set<Id>)
    requires Agree(g, g', s) && m <= s
    ensures TopologicalSort(g, m) == TopologicalSort(g', m)
  {
    SortedLocal(g, g', s, m);
    SortedIsAscending(g, m);
    SweepsLocal(g, g', s, m, Sorted(g, m), []);
  }

  // The candidate has the same past in both stores.
  ghost predicate SamePast(g: Dag, g': Dag, c: Id) {
    forall b :: Reaches(g.headers, b, c) <==> Reaches(g'.headers, b, c)
  }

  lemma AgreeSamePast(g: Dag, g': Dag, s: set<Id>, c: Id)
    requires Agree(g, g', s) && c in s
    ensures SamePast(g, g', c)
  {
    forall b ensures Reaches(g.headers, b, c) <==> Reaches(g'.headers, b, c) {
      ReachesLocal(g.headers, g'.headers, s, b, c);
    }
  }

  lemma {:induction false} ScanLocal(g: Dag, g': Dag, c: Id, blues: seq<Id>, sizes: map<Id, nat>, count: nat,
      updates: seq<(Id, nat)>)
    requires g.k == g'.k && SamePast(g, g', c)
    ensures Scan(g, c, blues, sizes, count, updates) == Scan(g', c, blues, sizes, count, updates)
    decreases |blues|
  {
    if blues == [] {
    } else if Reaches(g.headers, blues[0], c) {
      ScanLocal(g, g', c, blues[1..], sizes, count, updates);
    } else {
      ScanLocal(g, g', c, blues[1..], sizes, count + 1, updates + [(blues[0], SizeOf(sizes, blues[0]) + 1)]);
    }
  }

  lemma {:induction false} ScanChainLocal(g: Dag, g': Dag, s: set<Id>, c: Id, chain: Id, count: nat,
      updates: seq<(Id, nat)>)
    requires Agree(g, g', s) && c in s && chain in s
    ensures ScanChain(g, c, chain, count, updates) == ScanChain(g', c, chain, count, updates)
    decreases g.data[chain].height
  {
    AgreeSamePast(g, g', s, c);
    ScanLocal(g, g', c, g.data[chain].blues, g.data[chain].anticoneSizes, count, updates);
    var v := Scan(g, c, g.data[chain].blues, g.data[chain].anticoneSizes, count, updates);
    if !Reaches(g.headers, chain, c) && v.Blue? && chain != g.genesis {
      assert Placed(g, chain);
      ScanChainLocal(g, g', s, c, g.data[chain].selectedParent, v.anticone, v.updates);
    }
  }

  lemma {:induction false} ColourAllLocal(g: Dag, g': Dag, s: set<Id>, sp: Id, candidates: seq<Id>, col: Colouring)
    requires Agree(g, g', s) && sp in s && Elems(candidates) <= s
    ensures ColourAll(g, sp, candidates, col) == ColourAll(g', sp, candidates, col)
    decreases |candidates|
  {
    if candidates == [] {
    } else {
      var c := candidates[0];
      assert c in Elems(candidates) && Elems(candidates[1..]) <= Elems(candidates);
      AgreeSamePast(g, g', s, c);
      ScanLocal(g, g', c, col.blues, col.sizes, 0, []);
      var v := Scan(g, c, col.blues, col.sizes, 0, []);
      if v.Blue? {
        ScanChainLocal(g, g', s, c, sp, v.anticone, v.updates);
      }
      ColourAllLocal(g, g', s, sp, candidates[1..], Colour(col, c, ColourCandidate(g, c, sp, col.blues, col.sizes)));
    }
  }

  lemma {:induction false} AddWorkLocal(g: Dag, g': Dag, s: set<Id>, work: U256, blues: seq<Id>)
    requires Agree(g, g', s) && Elems(blues) <= s
    ensures AddWork(g, work, blues) == AddWork(g', work, blues)
    decreases |blues|
  {
    if blues == [] {
    } else {
      assert blues[0] in Elems(blues) && Elems(blues[1..]) <= Elems(blues);
      AddWorkLocal(g, g', s, Work.SaturatingAdd(work, BlockWork(g, blues[0])), blues[1..]);
    }
  }

  lemma {:induction false} MaxHeightLocal(g: Dag, g': Dag, s: set<Id>, highest: nat, parents: seq<Id>)
    requires Agree(g, g', s) && Elems(parents) <= s
    ensures MaxHeight(g, highest, parents) == MaxHeight(g', highest, parents)
    decreases |parents|
  {
    if parents == [] {
    } else {
      assert parents[0] in Elems(parents) && Elems(parents[1..]) <= Elems(parents);
      MaxHeightLocal(g, g', s, if Height(g, parents[0]) > highest then Height(g, parents[0]) else highest,
          parents[1..]);
    }
  }

  // The blues a colouring ends with were there before or were candidates.
  lemma {:induction false} ColourAllBlues(g: Dag, sp: Id, candidates: seq<Id>, col: Colouring)
    requires Grounded(g) && sp in g.headers
    ensures Elems(ColourAll(g, sp, candidates, col).blues) <= Elems(col.blues) + Elems(candidates)
    decreases |candidates|
  {
    if candidates == [] {
    } else {
      var c := candidates[0];
      var col' := Colour(col, c, ColourCandidate(g, c, sp, col.blues, col.sizes));
      assert Elems(col'.blues) <= Elems(col.blues) + {c};
      assert c in Elems(candidates) && Elems(candidates[1..]) <= Elems(candidates);
      ColourAllBlues(g, sp, candidates[1..], col');
    }
  }

  lemma MergeOrderLocal(g: Dag, g': Dag, s: set<Id>, h: Header)
    requires Agree(g, g', s) && h.parents != [] && Elems(h.parents) <= s
    ensures SelectedParent(g, h) == SelectedParent(g', h) && SelectedParent(g, h) in s
    ensures Merged(g, h) == Merged(g', h) <= s
    ensures MergeOrder(g, h) == MergeOrder(g', h) && Elems(MergeOrder(g, h)) <= s
  {
    assert h.parents[0] in Elems(h.parents) && Elems(h.parents[1..]) <= Elems(h.parents);
    SelectParentLocal(g, g', s, h.parents[0], h.parents[1..]);
    SelectedParentIsParent(g, h);
    assert SelectedParent(g, h) in Elems(h.parents);
    MergeSetLocal(g, g', s, h.parents, SelectedParent(g, h));
    TopologicalSortLocal(g, g', s, Merged(g, h));
    TopologicalSortOrders(g, Merged(g, h));
  }

  lemma ColouredLocal(g: Dag, g': Dag, s: set<Id>, h: Header)
    requires Agree(g, g', s) && h.parents != [] && Elems(h.parents) <= s
    requires Attachable(g, h) && Attachable(g', h)
    ensures Coloured(g, h) == Coloured(g', h) && Elems(Coloured(g, h).blues) <= s
  {
    MergeOrderLocal(g, g', s, h);
    var sp := SelectedParent(g, h);
    ColourAllLocal(g, g', s, sp, MergeOrder(g, h), InitialColouring(sp));
    ColourAllBlues(g, sp, MergeOrder(g, h), InitialColouring(sp));
  }

  lemma AssembleLocal(g: Dag, g': Dag, s: set<Id>, h: Header, sp: Id, ordered: seq<Id>, col: Colouring)
    requires Agree(g, g', s) && Elems(h.parents) <= s && sp in s && |col.blues| >= 1 && Elems(col.blues) <= s
    ensures Assemble(g, h, sp, ordered, col) == Assemble(g', h, sp, ordered, col)
  {
    assert Elems(col.blues[1..]) <= Elems(col.blues);
    AddWorkLocal(g, g', s, g.data[sp].blueWork, col.blues[1..]);
    MaxHeightLocal(g, g', s, 0, h.parents);
  }

  // Stores that agree on a block's past derive the same data for it.
  lemma DeriveLocal(g: Dag, g': Dag, s: set<Id>, h: Header)
    requires Agree(g, g', s) && h.parents != [] && Elems(h.parents) <= s
    ensures Attachable(g, h) && Attachable(g', h) && Derive(g, h) == Derive(g', h)
  {
    assert forall p :: p in h.parents ==> p in Elems(h.parents);
    MergeOrderLocal(g, g', s, h);
    ColouredLocal(g, g', s, h);
    AssembleLocal(g, g', s, h, SelectedParent(g, h), MergeOrder(g, h), Coloured(g, h));
  }

  // A well-derived block stands above its parents.
  lemma DerivedIsPlaced(g: Dag, h: Header)
    requires Attachable(g, h) && Derive(g, h).Ok?
    ensures Derive(g, h).value.selectedParent in h.parents
    ensures forall p :: p in h.parents ==> g.data[p].height < Derive(g, h).value.height
  {
    SelectedParentIsParent(g, h);
    MaxHeightBounds(g, 0, h.parents);
    forall p | p in h.parents ensures g.data[p].height < Derive(g, h).value.height {
      assert Height(g, p) == g.data[p].height;
    }
  }

  // A new store is consistent.
  lemma NewIsConsistent(genesis: Header, k: nat, limit: nat)
    requires genesis.parents == []
    ensures Consistent(NewDag(genesis, k, limit))
  {
  }

  lemma AttachIsGrounded(g: Dag, h: Header, d: GhostdagData)
    requires Attachable(g, h) && h.hash !in g.headers && Derive(g, h) == Ok(d)
    ensures Grounded(Attach(g, h, d))
  {
    var g' := Attach(g, h, d);
    DerivedIsPlaced(g, h);
    forall b | b in g'.headers && b != g'.genesis ensures Placed(g', b) {
      if b != h.hash { assert Placed(g, b); }
    }
  }

  lemma AttachAgrees(g: Dag, h: Header, d: GhostdagData)
    requires Grounded(g) && h.hash !in g.headers && Grounded(Attach(g, h, d))
    ensures Agree(g, Attach(g, h, d), g.headers.Keys)
  {
    ParentsHeld(g);
  }

  lemma DerivedLocal(g: Dag, g': Dag, s: set<Id>, b: Id)
    requires Agree(g, g', s) && b in s && Derived(g, b)
    ensures Derived(g', b)
  {
    if b != g.genesis {
      assert Placed(g, b) && Placed(g', b);
      DeriveLocal(g, g', s, g.headers[b]);
    }
  }

  // Adding a block changes no held block and keeps every block's data derived.
  lemma AddBlockKeepsConsistent(g: Dag, h: Header)
    requires Consistent(g)
    ensures AddBlock(g, h).Ok? ==>
      var g' := AddBlock(g, h).value;
      && Consistent(g')
      && g'.headers == g.headers[h.hash := h]
      && Agree(g, g', g.headers.Keys)
  {
    if AddBlock(g, h).Ok? {
      var g' := AddBlock(g, h).value;
      AttachIsGrounded(g, h, Derive(g, h).value);
      AttachAgrees(g, h, Derive(g, h).value);
      forall b | b in g'.headers ensures Derived(g', b) {
        if b == h.hash {
          assert Placed(g', b);
          DeriveLocal(g, g', g.headers.Keys, h);
        } else {
          DerivedLocal(g, g', g.headers.Keys, b);
        }
      }
    }
  }

  // Same parameters, and no two headers with one hash.
  ghost predicate Compatible(g: Dag, g': Dag) {
    && g.genesis == g'.genesis && g.k == g'.k && g.limit == g'.limit
    && forall b :: b in g.headers && b in g'.headers ==> g.headers[b] == g'.headers[b]
  }

  // The blocks two stores share below a height are closed under parents.
  lemma SharedBelowHeight(g: Dag, g': Dag, n: nat) returns (s: set<Id>)
    requires Grounded(g) && Grounded(g') && Compatible(g, g')
    ensures s == set x | x in g.headers && x in g'.headers && g.data[x].height < n
    ensures SharedPast(g.headers, g'.headers, s)
  {
    s := set x | x in g.headers && x in g'.headers && g.data[x].height < n;
    forall x, p | x in s && p in g.headers[x].parents ensures p in s {
      assert x != g.genesis;
      assert Placed(g, x) && Placed(g', x);
    }
  }

  lemma {:induction false} SharedBlockAgrees(g: Dag, g': Dag, b: Id)
    requires Consistent(g) && Consistent(g') && Compatible(g, g')
    requires b in g.headers && b in g'.headers
    ensures g.data[b] == g'.data[b]
    decreases g.data[b].height
  {
    assert Derived(g, b) && Derived(g', b);
    if b != g.genesis {
      assert Placed(g, b) && Placed(g', b);
      var s := SharedBelowHeight(g, g', g.data[b].height);
      forall x | x in s ensures g.data[x] == g'.data[x] {
        SharedBlockAgrees(g, g', x);
      }
      assert Elems(g.headers[b].parents) <= s;
      DeriveLocal(g, g', s, g.headers[b]);
    }
  }

  // Two consistent stores hold identical data for every block they share.
  lemma SameBlocksSameData(g: Dag, g': Dag)
    requires Consistent(g) && Consistent(g') && Compatible(g, g')
    ensures forall b :: b in g.headers && b in g'.headers ==> g.data[b] == g'.data[b]
    ensures g.headers.Keys == g'.headers.Keys ==> g == g'
  {
    forall b | b in g.headers && b in g'.headers ensures g.data[b] == g'.data[b] {
      SharedBlockAgrees(g, g', b);
    }
  }

  /* ---------- runs of insertions ---------- */

  // A run of `add_block` calls, rejected headers leaving the store as it was.
  ghost function AddAll(g: Dag, hs: seq<Header>): Dag
    requires Consistent(g)
    decreases |hs|
  {
    if hs == [] then g else
      AddBlockKeepsConsistent(g, hs[0]);
      AddAll(if AddBlock(g, hs[0]).Ok? then AddBlock(g, hs[0]).value else g, hs[1..])
  }

  lemma {:induction false} AddAllKeepsConsistent(g: Dag, hs: seq<Header>)
    requires Consistent(g)
    ensures Consistent(AddAll(g, hs))
    ensures AddAll(g, hs).genesis == g.genesis && AddAll(g, hs).k == g.k && AddAll(g, hs).limit == g.limit
    ensures forall b :: b in g.headers ==>
              b in AddAll(g, hs).headers && AddAll(g, hs).headers[b] == g.headers[b] && AddAll(g, hs).data[b] == g.data[b]
    ensures forall b :: b in AddAll(g, hs).headers ==> b in g.headers || AddAll(g, hs).headers[b] in hs
    decreases |hs|
  {
    if hs == [] {
    } else {
      AddBlockKeepsConsistent(g, hs[0]);
      AddAllKeepsConsistent(if AddBlock(g, hs[0]).Ok? then AddBlock(g, hs[0]).value else g, hs[1..]);
    }
  }

  // Order independence: whatever was inserted and in whatever order, two stores
  // rooted at one genesis give identical data to every block they both hold, and
  // stores that end with the same blocks are the same store.
  lemma OrderIndependence(genesis: Header, k: nat, limit: nat, hs: seq<Header>, hs': seq<Header>)
    requires genesis.parents == []
    requires forall h, h' :: h in [genesis] + hs && h' in [genesis] + hs' && h.hash == h'.hash ==> h == h'
    ensures Consistent(NewDag(genesis, k, limit))
    ensures var g, g' := AddAll(NewDag(genesis, k, limit), hs), AddAll(NewDag(genesis, k, limit), hs');
      && Consistent(g) && Consistent(g')
      && (forall b :: b in g.headers && b in g'.headers ==> g.data[b] == g'.data[b])
      && (g.headers.Keys == g'.headers.Keys ==> g == g')
  {
    var root := NewDag(genesis, k, limit);
    NewIsConsistent(genesis, k, limit);
    AddAllKeepsConsistent(root, hs);
    AddAllKeepsConsistent(root, hs');
    var g, g' := AddAll(root, hs), AddAll(root, hs');
    forall b | b in g.headers && b in g'.headers ensures g.headers[b] == g'.headers[b] {
      assert Derived(g, b) && Derived(g', b);
      assert g.headers[b] in [genesis] + hs && g'.headers[b] in [genesis] + hs';
    }
    SameBlocksSameData(g, g');
  }
}
