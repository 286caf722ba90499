// The k-cluster rule: what the colouring loops count, and the exact bound the
// sizes they record satisfy.
module Colouring {
  import opened Blocks
  import opened Reachability
  import opened Seqs
  import opened Ghostdag
  import opened Topology
  import opened BlueSets

  /* ---------- one candidate ---------- */

  // The listed blues outside the candidate's past, in order.
  ghost function Outside(g: Dag, c: Id, blues: seq<Id>): seq<Id> {
    if blues == [] then []
    else if Reaches(g.headers, blues[0], c) then Outside(g, c, blues[1..])
    else [blues[0]] + Outside(g, c, blues[1..])
  }

  ghost function OutsideSet(g: Dag, c: Id, s: set<Id>): set<Id> {
    set x | x in s && !Reaches(g.headers, x, c)
  }

  function Bumps(sizes: map<Id, nat>, q: seq<Id>): seq<(Id, nat)> {
    if q == [] then [] else [(q[0], SizeOf(sizes, q[0]) + 1)] + Bumps(sizes, q[1..])
  }

  ghost predicate Roomy(k: nat, sizes: map<Id, nat>, q: seq<Id>) {
    forall x :: x in q ==> SizeOf(sizes, x) < k
  }

  lemma {:induction false} ScanExact(g: Dag, c: Id, blues: seq<Id>, sizes: map<Id, nat>, count: nat,
      updates: seq<(Id, nat)>)
    requires count <= g.k
    ensures var out := Outside(g, c, blues);
      Scan(g, c, blues, sizes, count, updates) ==
      if count + |out| <= g.k && Roomy(g.k, sizes, out)
      then Blue(count + |out|, updates + Bumps(sizes, out)) else Red
    decreases |blues|
  {
    var out := Outside(g, c, blues);
    if blues == [] {
      assert updates + Bumps(sizes, out) == updates;
    } else if Reaches(g.headers, blues[0], c) {
      ScanExact(g, c, blues[1..], sizes, count, updates);
    } else {
      var rest := Outside(g, c, blues[1..]);
      assert out[0] == blues[0] && out[1..] == rest;
      assert forall x :: x in out <==> x == blues[0] || x in rest;
      var bump := (blues[0], SizeOf(sizes, blues[0]) + 1);
      if count + 1 <= g.k && SizeOf(sizes, blues[0]) < g.k {
        ScanExact(g, c, blues[1..], sizes, count + 1, updates + [bump]);
        assert updates + [bump] + Bumps(sizes, rest) == updates + Bumps(sizes, out);
      }
    }
  }

  lemma {:induction false} OutsideElems(g: Dag, c: Id, blues: seq<Id>)
    ensures Elems(Outside(g, c, blues)) == OutsideSet(g, c, Elems(blues))
    ensures Distinct(blues) ==> |Outside(g, c, blues)| == |OutsideSet(g, c, Elems(blues))|
    decreases |blues|
  {
    if blues == [] {
    } else {
      var x, rest := blues[0], blues[1..];
      OutsideElems(g, c, rest);
      assert Elems(blues) == {x} + Elems(rest);
      if Reaches(g.headers, x, c) {
        assert OutsideSet(g, c, Elems(blues)) == OutsideSet(g, c, Elems(rest));
      } else {
        assert OutsideSet(g, c, Elems(blues)) == {x} + OutsideSet(g, c, Elems(rest));
        var out := Outside(g, c, blues);
        assert out == [x] + Outside(g, c, rest);
        assert Elems(out) == {x} + Elems(Outside(g, c, rest));
        assert Distinct(blues) ==> x !in OutsideSet(g, c, Elems(rest));
      }
    }
  }

  // The size recorded for a chain blue by the chain block that merged it.
  ghost function MergedSize(g: Dag, chain: Id, x: Id): nat
    requires Grounded(g) && chain in g.headers
    decreases g.data[chain].height
  {
    if x in g.data[chain].blues || chain == g.genesis then SizeOf(g.data[chain].anticoneSizes, x)
    else assert Placed(g, chain); MergedSize(g, g.data[chain].selectedParent, x)
  }

  ghost predicate RoomyChain(g: Dag, chain: Id, s: set<Id>)
    requires Grounded(g) && chain in g.headers
  {
    forall x :: x in s ==> MergedSize(g, chain, x) < g.k
  }

  ghost function Keys(updates: seq<(Id, nat)>): set<Id> {
    set i | 0 <= i < |updates| :: updates[i].0
  }

  lemma {:induction false} BumpsKeys(sizes: map<Id, nat>, q: seq<Id>)
    ensures Keys(Bumps(sizes, q)) == Elems(q)
    decreases |q|
  {
    if q == [] {
    } else {
      BumpsKeys(sizes, q[1..]);
      var rest := Bumps(sizes, q[1..]);
      KeysOfConcat([(q[0], SizeOf(sizes, q[0]) + 1)], rest);
      assert Elems(q) == {q[0]} + Elems(q[1..]);
      var bump := (q[0], SizeOf(sizes, q[0]) + 1);
      assert [bump][0].0 in Keys([bump]);
    }
  }

  lemma KeysOfConcat(u: seq<(Id, nat)>, v: seq<(Id, nat)>)
    ensures Keys(u + v) == Keys(u) + Keys(v)
  {
    forall x | x in Keys(v) ensures x in Keys(u + v) {
      var i :| 0 <= i < |v| && v[i].0 == x;
      assert (u + v)[|u| + i].0 == x;
    }
    forall x | x in Keys(u) ensures x in Keys(u + v) {
      var i :| 0 <= i < |u| && u[i].0 == x;
      assert (u + v)[i].0 == x;
    }
  }

  // The chain walk counts the chain's blues outside the candidate's past.
  ghost predicate ChainVerdict(g: Dag, c: Id, chain: Id, count: nat, updates: seq<(Id, nat)>, v: Verdict)
    requires Grounded(g) && chain in g.headers
  {
    var out := OutsideSet(g, c, BlueSet(g, chain));
    if count + |out| <= g.k && RoomyChain(g, chain, out) then
      && v.Blue? && v.anticone == count + |out|
      && updates <= v.updates && Keys(v.updates[|updates|..]) == out
    else v == Red
  }

  lemma {:induction false} ScanChainExact(g: Dag, c: Id, chain: Id, count: nat, updates: seq<(Id, nat)>)
    requires Consistent(g) && chain in g.headers && c in g.headers && count <= g.k
    ensures ChainVerdict(g, c, chain, count, updates, ScanChain(g, c, chain, count, updates))
    decreases g.data[chain].height
  {
    if Reaches(g.headers, chain, c) {
      ChainBluesBelow(g, c, chain);
    } else {
      GenesisReachesAll(g, c);
      assert Placed(g, chain);
      var d := g.data[chain];
      ScanExact(g, c, d.blues, d.anticoneSizes, count, updates);
      var own := Scan(g, c, d.blues, d.anticoneSizes, count, updates);
      if own.Red? {
        FullChain(g, c, chain, count, updates);
      } else {
        var v := ScanChain(g, c, d.selectedParent, own.anticone, own.updates);
        ScanChainExact(g, c, d.selectedParent, own.anticone, own.updates);
        JoinVerdicts(g, c, chain, count, updates, Outside(g, c, d.blues), v);
        assert ScanChain(g, c, chain, count, updates) == v;
      }
    }
  }

  lemma FullChain(g: Dag, c: Id, chain: Id, count: nat, updates: seq<(Id, nat)>)
    requires Consistent(g) && chain in g.headers && chain != g.genesis
    requires var out := Outside(g, c, g.data[chain].blues);
      count + |out| > g.k || !Roomy(g.k, g.data[chain].anticoneSizes, out)
    ensures ChainVerdict(g, c, chain, count, updates, Red)
  {
    ChainStep(g, c, chain);
  }

  lemma ChainBluesBelow(g: Dag, c: Id, chain: Id)
    requires Consistent(g) && chain in g.headers && Reaches(g.headers, chain, c)
    ensures OutsideSet(g, c, BlueSet(g, chain)) == {}
  {
    forall x | x in BlueSet(g, chain) ensures Reaches(g.headers, x, c) {
      BlueIsInPast(g, chain, x);
      ReachesTrans(g.headers, x, chain, c);
    }
  }

  // One chain block's blues, then the rest of the chain's.
  lemma ChainStep(g: Dag, c: Id, chain: Id)
    requires Consistent(g) && chain in g.headers && chain != g.genesis
    ensures g.data[chain].selectedParent in g.headers
    ensures var d := g.data[chain];
      var own, rest := Elems(Outside(g, c, d.blues)), OutsideSet(g, c, BlueSet(g, d.selectedParent));
      && own !! rest && |own| == |Outside(g, c, d.blues)|
      && OutsideSet(g, c, BlueSet(g, chain)) == own + rest
      && |OutsideSet(g, c, BlueSet(g, chain))| == |own| + |rest|
      && (RoomyChain(g, chain, own + rest) <==>
          Roomy(g.k, d.anticoneSizes, Outside(g, c, d.blues)) && RoomyChain(g, d.selectedParent, rest))
  {
    var d := g.data[chain];
    assert Placed(g, chain);
    OwnBluesAreNew(g, chain);
    BluesAreMerged(g, chain);
    OutsideElems(g, c, d.blues);
    var own, rest := Elems(Outside(g, c, d.blues)), OutsideSet(g, c, BlueSet(g, d.selectedParent));
    assert OutsideSet(g, c, BlueSet(g, chain)) == own + rest;
    RoomyStep(g, c, chain);
  }

  lemma RoomyStep(g: Dag, c: Id, chain: Id)
    requires Consistent(g) && chain in g.headers && chain != g.genesis
    ensures g.data[chain].selectedParent in g.headers
    ensures var d := g.data[chain];
      RoomyChain(g, chain, Elems(Outside(g, c, d.blues)) + OutsideSet(g, c, BlueSet(g, d.selectedParent))) <==>
      Roomy(g.k, d.anticoneSizes, Outside(g, c, d.blues)) && RoomyChain(g, d.selectedParent, OutsideSet(g, c, BlueSet(g, d.selectedParent)))
  {
    var d := g.data[chain];
    assert Placed(g, chain);
    OwnBluesAreNew(g, chain);
    OutsideElems(g, c, d.blues);
    forall x | x in Outside(g, c, d.blues) ensures MergedSize(g, chain, x) == SizeOf(d.anticoneSizes, x) {
      assert x in Elems(Outside(g, c, d.blues));
    }
    forall x | x in BlueSet(g, d.selectedParent) ensures MergedSize(g, chain, x) == MergedSize(g, d.selectedParent, x) {
      assert x !in Elems(d.blues);
    }
  }

  lemma JoinVerdicts(g: Dag, c: Id, chain: Id, count: nat, updates: seq<(Id, nat)>, out: seq<Id>, v: Verdict)
    requires Consistent(g) && chain in g.headers && chain != g.genesis
    requires out == Outside(g, c, g.data[chain].blues) && Roomy(g.k, g.data[chain].anticoneSizes, out)
    requires g.data[chain].selectedParent in g.headers
    requires ChainVerdict(g, c, g.data[chain].selectedParent, count + |out|, updates + Bumps(g.data[chain].anticoneSizes, out), v)
    ensures ChainVerdict(g, c, chain, count, updates, v)
  {
    ChainStep(g, c, chain);
    if v.Blue? {
      var b := Bumps(g.data[chain].anticoneSizes, out);
      var tail := v.updates[|updates + b|..];
      assert v.updates == updates + b + tail;
      assert v.updates[|updates|..] == b + tail;
      KeysOfConcat(b, tail);
      BumpsKeys(g.data[chain].anticoneSizes, out);
    }
  }

  /* ---------- recording sizes ---------- */

  lemma {:induction false} UpdatesElsewhere(sizes: map<Id, nat>, updates: seq<(Id, nat)>, x: Id)
    requires x !in Keys(updates)
    ensures x in ApplyUpdates(sizes, updates) <==> x in sizes
    ensures x in sizes ==> ApplyUpdates(sizes, updates)[x] == sizes[x]
    decreases |updates|
  {
    if updates == [] {
    } else {
      KeysOfConcat([updates[0]], updates[1..]);
      assert updates == [updates[0]] + updates[1..];
      assert [updates[0]][0].0 in Keys([updates[0]]);
      UpdatesElsewhere(sizes[updates[0].0 := updates[0].1], updates[1..], x);
    }
  }

  lemma {:induction false} ApplyConcat(sizes: map<Id, nat>, u: seq<(Id, nat)>, v: seq<(Id, nat)>)
    ensures ApplyUpdates(sizes, u + v) == ApplyUpdates(ApplyUpdates(sizes, u), v)
    decreases |u|
  {
    if u == [] {
      assert u + v == v;
    } else {
      assert (u + v)[1..] == u[1..] + v;
      ApplyConcat(sizes[u[0].0 := u[0].1], u[1..], v);
    }
  }

  lemma {:induction false} ApplyBumps(m: map<Id, nat>, sizes: map<Id, nat>, q: seq<Id>, x: Id)
    requires x in q
    ensures x in ApplyUpdates(m, Bumps(sizes, q)) && ApplyUpdates(m, Bumps(sizes, q))[x] == SizeOf(sizes, x) + 1
    decreases |q|
  {
    var m' := m[q[0] := SizeOf(sizes, q[0]) + 1];
    assert Bumps(sizes, q)[1..] == Bumps(sizes, q[1..]);
    if x in q[1..] {
      ApplyBumps(m', sizes, q[1..], x);
    } else {
      BumpsKeys(sizes, q[1..]);
      UpdatesElsewhere(m', Bumps(sizes, q[1..]), x);
    }
  }

  /* ---------- the whole merge set ---------- */

  ghost function Anticone(g: Dag, s: set<Id>, x: Id): set<Id> {
    set y | y in s && Concurrent(g.headers, y, x)
  }

  // The colouring so far: own blues listed once, each with the exact number of
  // concurrent blues, which is at most k.
  ghost predicate Exact(g: Dag, sp: Id, col: Colouring)
    requires Grounded(g) && sp in g.headers
  {
    && Distinct(col.blues) && |col.blues| <= g.k + 1
    && Elems(col.blues) !! BlueSet(g, sp)
    && forall x :: x in col.blues ==>
         && x in col.sizes
         && col.sizes[x] == |Anticone(g, Elems(col.blues) + BlueSet(g, sp), x)| <= g.k
  }

  // A candidate that no coloured block has in its past.
  ghost predicate Fresh(g: Dag, sp: Id, col: Colouring, c: Id) {
    && c in g.headers && c !in col.blues
    && !Reaches(g.headers, c, sp)
    && forall x :: x in col.blues ==> !Reaches(g.headers, c, x)
  }

  // For a fresh candidate "outside its past" is "in its anticone".
  lemma OutsideIsAnticone(g: Dag, sp: Id, col: Colouring, c: Id)
    requires Consistent(g) && sp in g.headers && Fresh(g, sp, col, c)
    ensures var s := Elems(col.blues) + BlueSet(g, sp);
      && c !in s
      && Anticone(g, s, c) == OutsideSet(g, c, s) == OutsideSet(g, c, Elems(col.blues)) + OutsideSet(g, c, BlueSet(g, sp))
      && forall x :: x in s ==> !Reaches(g.headers, c, x)
  {
    var s := Elems(col.blues) + BlueSet(g, sp);
    forall x | x in s ensures !Reaches(g.headers, c, x) && x != c {
      if x in BlueSet(g, sp) {
        BlueIsInPast(g, sp, x);
        if Reaches(g.headers, c, x) { ReachesTrans(g.headers, c, x, sp); }
      }
    }
  }

  // Both loops of `colour_candidate` together.
  lemma CandidateVerdict(g: Dag, sp: Id, col: Colouring, c: Id)
    requires Consistent(g) && sp in g.headers && c in g.headers
    ensures var v := ColourCandidate(g, c, sp, col.blues, col.sizes);
      var out := Outside(g, c, col.blues);
      if |col.blues| <= g.k && |out| <= g.k && Roomy(g.k, col.sizes, out)
      then ChainVerdict(g, c, sp, |out|, Bumps(col.sizes, out), v)
      else v == Red
  {
    var out := Outside(g, c, col.blues);
    ScanExact(g, c, col.blues, col.sizes, 0, []);
    var u := Bumps(col.sizes, out);
    assert [] + u == u;
    if |col.blues| <= g.k && |out| <= g.k && Roomy(g.k, col.sizes, out) {
      ScanChainExact(g, c, sp, |out|, u);
    }
  }

  // The candidate's anticone is its concurrent own blues and its concurrent
  // chain blues.
  lemma AnticoneSplits(g: Dag, sp: Id, col: Colouring, c: Id)
    requires Consistent(g) && sp in g.headers && Exact(g, sp, col) && Fresh(g, sp, col, c)
    ensures Elems(Outside(g, c, col.blues)) == OutsideSet(g, c, Elems(col.blues))
    ensures OutsideSet(g, c, Elems(col.blues)) !! OutsideSet(g, c, BlueSet(g, sp))
    ensures |Anticone(g, Elems(col.blues) + BlueSet(g, sp), c)|
            == |Outside(g, c, col.blues)| + |OutsideSet(g, c, BlueSet(g, sp))|
  {
    OutsideIsAnticone(g, sp, col, c);
    OutsideElems(g, c, col.blues);
    var own, chain := OutsideSet(g, c, Elems(col.blues)), OutsideSet(g, c, BlueSet(g, sp));
    assert |own + chain| == |own| + |chain|;
  }

  // `colour_candidate` is the k-cluster rule: blue exactly when there is room
  // for another blue, at most k blues are concurrent with the candidate, and
  // none of those is recorded at its own limit.
  lemma VerdictIsClusterRule(g: Dag, sp: Id, col: Colouring, c: Id)
    requires Consistent(g) && sp in g.headers && Exact(g, sp, col) && Fresh(g, sp, col, c)
    ensures var s := Elems(col.blues) + BlueSet(g, sp);
      var v := ColourCandidate(g, c, sp, col.blues, col.sizes);
      && (v.Blue? <==>
            && |col.blues| <= g.k && |Anticone(g, s, c)| <= g.k
            && (forall x :: x in OutsideSet(g, c, Elems(col.blues)) ==> |Anticone(g, s, x)| < g.k)
            && RoomyChain(g, sp, OutsideSet(g, c, BlueSet(g, sp))))
      && (v.Blue? ==> v.anticone == |Anticone(g, s, c)|)
  {
    CandidateVerdict(g, sp, col, c);
    AnticoneSplits(g, sp, col, c);
    RoomyIsBelowLimit(g, sp, col, Outside(g, c, col.blues));
  }

  lemma RoomyIsBelowLimit(g: Dag, sp: Id, col: Colouring, out: seq<Id>)
    requires Consistent(g) && sp in g.headers && Exact(g, sp, col) && Elems(out) <= Elems(col.blues)
    ensures Roomy(g.k, col.sizes, out) <==>
            forall x :: x in Elems(out) ==> |Anticone(g, Elems(col.blues) + BlueSet(g, sp), x)| < g.k
  {
    assert forall x :: x in out <==> x in Elems(out);
    forall x | x in Elems(out) ensures SizeOf(col.sizes, x) == |Anticone(g, Elems(col.blues) + BlueSet(g, sp), x)| {
      assert x in Elems(col.blues);
    }
  }

  // Colouring a fresh candidate keeps the sizes exact.
  lemma ColourStep(g: Dag, sp: Id, col: Colouring, c: Id)
    requires Consistent(g) && sp in g.headers && Exact(g, sp, col) && Fresh(g, sp, col, c)
    ensures Exact(g, sp, Colour(col, c, ColourCandidate(g, c, sp, col.blues, col.sizes)))
  {
    var v := ColourCandidate(g, c, sp, col.blues, col.sizes);
    if v.Blue? {
      VerdictIsClusterRule(g, sp, col, c);
      OutsideIsAnticone(g, sp, col, c);
      BlueStep(g, sp, col, c, v);
    }
  }

  lemma BlueStep(g: Dag, sp: Id, col: Colouring, c: Id, v: Verdict)
    requires Consistent(g) && sp in g.headers && Exact(g, sp, col) && Fresh(g, sp, col, c)
    requires v == ColourCandidate(g, c, sp, col.blues, col.sizes) && v.Blue?
    requires |col.blues| <= g.k && c !in BlueSet(g, sp)
    ensures Exact(g, sp, Colour(col, c, v))
  {
    var col' := Colour(col, c, v);
    var s := Elems(col.blues) + BlueSet(g, sp);
    assert Elems(col'.blues) == Elems(col.blues) + {c};
    assert Elems(col'.blues) + BlueSet(g, sp) == s + {c};
    forall x | x in col'.blues
      ensures x in col'.sizes && col'.sizes[x] == |Anticone(g, s + {c}, x)| <= g.k
    {
      assert x in col.blues + [c];
      SizeStaysExact(g, sp, col, c, x);
    }
  }

  lemma SizeStaysExact(g: Dag, sp: Id, col: Colouring, c: Id, x: Id)
    requires Consistent(g) && sp in g.headers && Exact(g, sp, col) && Fresh(g, sp, col, c)
    requires x in col.blues || x == c
    requires ColourCandidate(g, c, sp, col.blues, col.sizes).Blue?
    ensures var v := ColourCandidate(g, c, sp, col.blues, col.sizes);
      var sizes := ApplyUpdates(col.sizes[c := v.anticone], v.updates);
      x in sizes && sizes[x] == |Anticone(g, Elems(col.blues) + BlueSet(g, sp) + {c}, x)| <= g.k
  {
    VerdictIsClusterRule(g, sp, col, c);
    SizeAfter(g, sp, col, c, x);
    AnticoneAfter(g, sp, col, c, x);
    if x != c && !Reaches(g.headers, x, c) {
      assert x in OutsideSet(g, c, Elems(col.blues));
    }
  }

  // What the map records for an own blue once `c` is blue too.
  lemma SizeAfter(g: Dag, sp: Id, col: Colouring, c: Id, x: Id)
    requires Consistent(g) && sp in g.headers && Exact(g, sp, col) && Fresh(g, sp, col, c)
    requires x in col.blues || x == c
    requires ColourCandidate(g, c, sp, col.blues, col.sizes).Blue?
    ensures var v := ColourCandidate(g, c, sp, col.blues, col.sizes);
      var sizes := ApplyUpdates(col.sizes[c := v.anticone], v.updates);
      && x in sizes
      && sizes[x] == if x == c then v.anticone
                     else if Reaches(g.headers, x, c) then col.sizes[x] else col.sizes[x] + 1
  {
    var v := ColourCandidate(g, c, sp, col.blues, col.sizes);
    var out := Outside(g, c, col.blues);
    CandidateVerdict(g, sp, col, c);
    AnticoneSplits(g, sp, col, c);
    OutsideIsAnticone(g, sp, col, c);
    var bumps := Bumps(col.sizes, out);
    var tail := v.updates[|bumps|..];
    assert v.updates == bumps + tail;
    var m := col.sizes[c := v.anticone];
    ApplyConcat(m, bumps, tail);
    assert x in out <==> x in Elems(out);
    assert x !in Keys(tail);
    if x in out {
      ApplyBumps(m, col.sizes, out, x);
    } else {
      BumpsKeys(col.sizes, out);
      UpdatesElsewhere(m, bumps, x);
    }
    UpdatesElsewhere(ApplyUpdates(m, bumps), tail, x);
  }

  // How the anticone of an own blue grows when `c` turns blue.
  lemma AnticoneAfter(g: Dag, sp: Id, col: Colouring, c: Id, x: Id)
    requires Consistent(g) && sp in g.headers && Exact(g, sp, col) && Fresh(g, sp, col, c)
    requires x in col.blues || x == c
    ensures var s := Elems(col.blues) + BlueSet(g, sp);
      |Anticone(g, s + {c}, x)| == |Anticone(g, s, x)| + (if x == c || Reaches(g.headers, x, c) then 0 else 1)
  {
    var s := Elems(col.blues) + BlueSet(g, sp);
    OutsideIsAnticone(g, sp, col, c);
    ReachesSelf(g.headers, c);
    AnticoneWith(g, s, c, x);
    assert x != c ==> x in s;
  }

  // One more block in the set adds itself where it is concurrent.
  lemma AnticoneWith(g: Dag, s: set<Id>, c: Id, x: Id)
    requires c !in s
    ensures |Anticone(g, s + {c}, x)| == |Anticone(g, s, x)| + (if Concurrent(g.headers, c, x) then 1 else 0)
  {
    var before, after := Anticone(g, s, x), Anticone(g, s + {c}, x);
    assert c !in before;
    assert after == if Concurrent(g.headers, c, x) then before + {c} else before;
  }

  // Candidate `i` of the merge order is fresh once the ones before it are coloured.
  lemma NextIsFresh(g: Dag, h: Header, i: nat, col: Colouring)
    requires Consistent(g) && Attachable(g, h) && i < |MergeOrder(g, h)|
    requires Elems(col.blues) <= {SelectedParent(g, h)} + Elems(MergeOrder(g, h)[..i])
    ensures Fresh(g, SelectedParent(g, h), col, MergeOrder(g, h)[i])
  {
    var q, sp := MergeOrder(g, h), SelectedParent(g, h);
    TopologicalSortOrders(g, Merged(g, h));
    assert q[i] in Elems(q);
    ReachesSelf(g.headers, sp);
    forall x | x in Elems(col.blues) ensures x != q[i] && !Reaches(g.headers, q[i], x) {
      if x != sp {
        assert x in q[..i];
        StandsBefore(g, h, i, x);
      }
    }
    assert forall x :: x in col.blues <==> x in Elems(col.blues);
  }

  // An earlier merge-set block has no later one in its past.
  lemma StandsBefore(g: Dag, h: Header, i: nat, x: Id)
    requires Attachable(g, h) && i < |MergeOrder(g, h)| && x in MergeOrder(g, h)[..i]
    ensures x != MergeOrder(g, h)[i] && !Reaches(g.headers, MergeOrder(g, h)[i], x)
  {
    var q := MergeOrder(g, h);
    TopologicalSortOrders(g, Merged(g, h));
    assert q[i] in Elems(q);
    var j :| 0 <= j < i && q[j] == x;
    if Reaches(g.headers, q[i], q[j]) {
      var k := OrderRespectsAncestry(g, h, j, q[i]);
    }
  }

  lemma {:induction false} ColourFrom(g: Dag, h: Header, i: nat, col: Colouring)
    requires Consistent(g) && Attachable(g, h) && i <= |MergeOrder(g, h)|
    requires SelectedParent(g, h) in g.headers && Exact(g, SelectedParent(g, h), col)
    requires Elems(col.blues) <= {SelectedParent(g, h)} + Elems(MergeOrder(g, h)[..i])
    ensures Exact(g, SelectedParent(g, h), ColourAll(g, SelectedParent(g, h), MergeOrder(g, h)[i..], col))
    decreases |MergeOrder(g, h)| - i
  {
    if i < |MergeOrder(g, h)| {
      var next := ColourNext(g, h, i, col);
      ColourFrom(g, h, i + 1, next);
    }
  }

  lemma ColourNext(g: Dag, h: Header, i: nat, col: Colouring) returns (next: Colouring)
    requires Consistent(g) && Attachable(g, h) && i < |MergeOrder(g, h)|
    requires SelectedParent(g, h) in g.headers && Exact(g, SelectedParent(g, h), col)
    requires Elems(col.blues) <= {SelectedParent(g, h)} + Elems(MergeOrder(g, h)[..i])
    ensures Exact(g, SelectedParent(g, h), next)
    ensures Elems(next.blues) <= {SelectedParent(g, h)} + Elems(MergeOrder(g, h)[..i + 1])
    ensures ColourAll(g, SelectedParent(g, h), MergeOrder(g, h)[i..], col)
            == ColourAll(g, SelectedParent(g, h), MergeOrder(g, h)[i + 1..], next)
  {
    var q, sp := MergeOrder(g, h), SelectedParent(g, h);
    NextIsFresh(g, h, i, col);
    ColourStep(g, sp, col, q[i]);
    next := Colour(col, q[i], ColourCandidate(g, q[i], sp, col.blues, col.sizes));
    assert Elems(q[..i + 1]) == Elems(q[..i]) + {q[i]};
    assert Elems(next.blues) <= Elems(col.blues) + {q[i]};
    assert q[i..][1..] == q[i + 1..];
  }

  lemma InitialIsExact(g: Dag, sp: Id)
    requires Consistent(g) && sp in g.headers
    ensures Exact(g, sp, InitialColouring(sp))
  {
    var s := Elems([sp]) + BlueSet(g, sp);
    assert Elems([sp]) == {sp};
    forall y | y in s ensures Reaches(g.headers, y, sp) {
      if y in BlueSet(g, sp) { BlueIsInPast(g, sp, y); } else { ReachesSelf(g.headers, sp); }
    }
    if sp in BlueSet(g, sp) { BlueIsInPast(g, sp, sp); }
    assert Anticone(g, s, sp) == {};
  }

  // Colouring exactness: the size a block records for each blue of its own merge
  // set is the number of its blue set concurrent with that blue, never above k;
  // it lists at most k + 1 blues, its blue score counts its blue set, and blues
  // and reds together are the selected parent and the merge set.
  lemma ColouringExactness(g: Dag, b: Id)
    requires Consistent(g) && b in g.headers && b != g.genesis
    ensures var d := g.data[b];
      && (forall x :: x in d.blues ==>
            && x in d.anticoneSizes
            && d.anticoneSizes[x] == |Anticone(g, BlueSet(g, b), x)| <= g.k)
      && |d.blues| <= g.k + 1
      && d.blueScore == |BlueSet(g, b)|
      && multiset(d.blues) + multiset(d.reds) == multiset([d.selectedParent] + d.ordered)
  {
    Unfold(g, b);
    var h := g.headers[b];
    var sp := SelectedParent(g, h);
    InitialIsExact(g, sp);
    assert MergeOrder(g, h)[0..] == MergeOrder(g, h);
    assert Elems([sp]) == {sp};
    ColourFrom(g, h, 0, InitialColouring(sp));
    BlueScoreCountsBlues(g, b);
    BluesAreMerged(g, b);
  }
}
