// The block DAG store: incremental tips and child edges, memoised reachability,
// and the worklist loops that compute GHOSTDAG data.
module DagStores {
  import opened Blocks
  import opened Reachability
  import opened Compact
  import opened Seqs
  import opened Ghostdag
  import opened Topology
  import opened OrderIndependence
  import opened Linearisation
  import opened BlueWorks

  type Cache = map<(Id, Id), bool>

  const CACHE_CAPACITY: nat := 32768

  // Every remembered answer is about a held descendant, and right.
  ghost predicate CacheSound(hs: Headers, cache: Cache) {
    forall d, a {:trigger (d, a) in cache} :: (d, a) in cache ==> d in hs && (cache[(d, a)] <==> Reaches(hs, a, d))
  }

  // `remember`: drops the whole cache when it is full.
  function Remember(cache: Cache, d: Id, a: Id, answer: bool): Cache {
    (if |cache| >= CACHE_CAPACITY then map[] else cache)[(d, a) := answer]
  }

  // Remembered answers stay right as blocks are added.
  lemma GrowthKeepsSound(hs: Headers, hs': Headers, cache: Cache)
    requires CacheSound(hs, cache) && SharedPast(hs, hs', hs.Keys)
    ensures CacheSound(hs', cache)
  {
    forall d, a | (d, a) in cache ensures d in hs' && (cache[(d, a)] <==> Reaches(hs', a, d)) {
      ReachesLocal(hs, hs', hs.Keys, a, d);
    }
  }

  // Not so an answer about a descendant that was absent when asked: right when
  // given, it is remembered past the block's arrival as a child of the ancestor.
  lemma AbsentDescendantGoesStale(hs: Headers, a: Id, child: Header)
    requires Closed(hs) && a in hs && child.hash !in hs && child.parents == [a]
    ensures var after := hs[child.hash := child];
      var cache := Remember(map[], child.hash, a, Reaches(hs, a, child.hash));
      && Closed(after) && SharedPast(hs, after, hs.Keys)
      && !Reaches(hs, a, child.hash) && Reaches(after, a, child.hash) && !CacheSound(after, cache)
  {
    var after := hs[child.hash := child];
    ReachesParent(after, a, child.hash);
    if Reaches(hs, a, child.hash) {
      var p := ReachesSplit(hs, a, child.hash);
    }
    assert Remember(map[], child.hash, a, false)[(child.hash, a)] == false;
  }

  // An answer stays right however the store grows exactly when its descendant was
  // present when it was given.
  lemma AnswersLastExactly(hs: Headers, a: Id, d: Id)
    requires Closed(hs) && a in hs && a != d
    ensures (forall hs' {:trigger SharedPast(hs, hs', hs.Keys)} :: Closed(hs') && SharedPast(hs, hs', hs.Keys) ==>
               (Reaches(hs', a, d) <==> Reaches(hs, a, d)))
            <==> d in hs
  {
    if d in hs {
      forall hs' | SharedPast(hs, hs', hs.Keys) ensures Reaches(hs', a, d) <==> Reaches(hs, a, d) {
        ReachesLocal(hs, hs', hs.Keys, a, d);
      }
    } else {
      AbsentDescendantGoesStale(hs, a, Header(d, [a], 0, 0, 0));
    }
  }

  // A height-pruned search that has explored all it has seen has seen every
  // block that could lead to the ancestor.
  ghost predicate Explored(g: Dag, ancestor: Id, seen: set<Id>, x: Id)
    requires x in g.headers
  {
    forall p :: p in g.headers[x].parents ==>
      p != ancestor && (Height(g, p) <= Height(g, ancestor) || p in seen)
  }

  lemma ExhaustedSearch(g: Dag, ancestor: Id, descendant: Id, seen: set<Id>)
    requires Grounded(g) && descendant in seen && seen <= g.headers.Keys && ancestor !in seen
    requires forall x :: x in seen ==> Explored(g, ancestor, seen, x)
    ensures !Reaches(g.headers, ancestor, descendant)
  {
    if Reaches(g.headers, ancestor, descendant) {
      forall x, p | x in seen && x in g.headers && p in g.headers[x].parents && Reaches(g.headers, ancestor, p)
        ensures p in seen
      {
        assert Explored(g, ancestor, seen, x);
        ParentIsLower(g, p, x);
        AncestorsAreLower(g, ancestor, p);
      }
      ReachesStaysIn(g.headers, ancestor, descendant, seen);
    }
  }

  // The merge-set walk: what it skips, it skips because it is in the selected
  // parent's past; what it keeps, it walks through.
  ghost predicate Walked(g: Dag, sp: Id, seen: set<Id>, x: Id)
    requires x in g.headers
  {
    forall p :: p in g.headers[x].parents ==> p == sp || p in seen
  }

  lemma ExhaustedWalk(g: Dag, h: Header, seen: set<Id>, kept: set<Id>)
    requires Attachable(g, h)
    requires seen <= g.headers.Keys && kept <= seen
    requires forall p :: p in h.parents ==> p == SelectedParent(g, h) || p in seen
    requires forall x :: x in seen ==> InPast(g.headers, x, h.parents)
    requires forall x :: x in seen ==> (x in kept <==> !Reaches(g.headers, x, SelectedParent(g, h)))
    requires forall x :: x in kept ==> Walked(g, SelectedParent(g, h), seen, x)
    ensures kept == Merged(g, h)
  {
    var sp := SelectedParent(g, h);
    ReachesSelf(g.headers, sp);
    forall y | y in Merged(g, h) ensures y in kept {
      var t :| t in h.parents && Reaches(g.headers, y, t);
      forall x, p | x in kept && x in g.headers && p in g.headers[x].parents && Reaches(g.headers, y, p)
        ensures p in kept
      {
        assert Walked(g, sp, seen, x);
        if Reaches(g.headers, p, sp) { ReachesTrans(g.headers, y, p, sp); }
      }
      if Reaches(g.headers, t, sp) { ReachesTrans(g.headers, y, t, sp); }
      ReachesStaysIn(g.headers, y, t, kept);
    }
  }

  ghost function OtherParents(parents: seq<Id>, sp: Id): set<Id> {
    set p | p in parents && p != sp
  }

  // The state of the merge-set walk between two queue pops.
  ghost predicate Queued(g: Dag, h: Header, seen: set<Id>, queue: seq<Id>, mergeset: seq<Id>)
    requires h.parents != []
  {
    var sp := SelectedParent(g, h);
    && seen <= g.headers.Keys
    && OtherParents(h.parents, sp) <= seen
    && (forall x :: x in seen ==> InPast(g.headers, x, h.parents))
    && Elems(queue) <= seen && Elems(mergeset) <= seen && Elems(queue) !! Elems(mergeset)
    && Distinct(mergeset)
    && (forall x :: x in seen ==> x in queue || x in mergeset || Reaches(g.headers, x, sp))
    && (forall x :: x in Elems(mergeset) ==> !Reaches(g.headers, x, sp) && Walked(g, sp, seen, x))
  }

  lemma Seeded(g: Dag, h: Header, seen: set<Id>)
    requires Attachable(g, h) && seen == OtherParents(h.parents, SelectedParent(g, h))
    ensures forall q: seq<Id> :: Elems(q) == seen ==> Queued(g, h, seen, q, [])
  {
    forall x | x in seen ensures InPast(g.headers, x, h.parents) {
      ReachesSelf(g.headers, x);
    }
    forall q: seq<Id> | Elems(q) == seen ensures Queued(g, h, seen, q, []) {
      assert forall x :: x in q <==> x in Elems(q);
    }
  }

  lemma Skipped(g: Dag, h: Header, seen: set<Id>, queue: seq<Id>, mergeset: seq<Id>)
    requires Attachable(g, h) && queue != [] && Distinct(queue) && Queued(g, h, seen, queue, mergeset)
    requires Reaches(g.headers, queue[0], SelectedParent(g, h))
    ensures Queued(g, h, seen, queue[1..], mergeset)
  {
    assert forall x :: x in queue <==> x == queue[0] || x in queue[1..];
    assert Elems(queue[1..]) <= Elems(queue);
  }

  lemma Kept(g: Dag, h: Header, seen: set<Id>, queue: seq<Id>, mergeset: seq<Id>, seen': set<Id>, queue': seq<Id>)
    requires Attachable(g, h) && queue != [] && Distinct(queue) && Queued(g, h, seen, queue, mergeset)
    requires queue[0] in g.headers && !Reaches(g.headers, queue[0], SelectedParent(g, h))
    requires seen' == seen + OtherParents(g.headers[queue[0]].parents, SelectedParent(g, h))
    requires Elems(queue') == Elems(queue[1..]) + (seen' - seen)
    ensures Queued(g, h, seen', queue', mergeset + [queue[0]])
  {
    var c, sp := queue[0], SelectedParent(g, h);
    assert c in Elems(queue) && forall x :: x in queue <==> x == c || x in queue[1..];
    assert c !in Elems(queue[1..]);
    assert Elems(mergeset + [c]) == Elems(mergeset) + {c};
    forall x | x in seen' ensures x in g.headers && InPast(g.headers, x, h.parents) {
      if x !in seen {
        var t :| t in h.parents && Reaches(g.headers, c, t);
        ParentIsLower(g, x, c);
        ReachesParent(g.headers, x, c);
        ReachesTrans(g.headers, x, c, t);
      }
    }
    forall x | x in seen' ensures x in queue' || x in mergeset + [c] || Reaches(g.headers, x, sp) {
      assert x in queue' <==> x in Elems(queue');
      assert x in queue[1..] <==> x in Elems(queue[1..]);
    }
    forall x | x in Elems(mergeset + [c]) ensures Walked(g, sp, seen', x) {
      if x != c { assert Walked(g, sp, seen, x); }
    }
  }

  // The walk stops early only when the merge set really is over the limit.
  lemma TooMany(g: Dag, h: Header, seen: set<Id>, queue: seq<Id>, mergeset: seq<Id>)
    requires Attachable(g, h) && queue != [] && Queued(g, h, seen, queue, mergeset)
    requires !Reaches(g.headers, queue[0], SelectedParent(g, h))
    ensures |Merged(g, h)| > |mergeset|
  {
    DistinctCount(mergeset);
    var found := Elems(mergeset) + {queue[0]};
    assert queue[0] in Elems(queue);
    assert |found| == |mergeset| + 1;
    assert found <= Merged(g, h);
    SubsetCount(found, Merged(g, h));
  }

  lemma MergeOrderHeld(g: Dag, h: Header)
    requires Attachable(g, h)
    ensures forall x :: x in MergeOrder(g, h) ==> x in g.headers
    ensures SelectedParent(g, h) in g.headers
  {
    TopologicalSortOrders(g, Merged(g, h));
    SelectedParentIsParent(g, h);
    assert forall x :: x in MergeOrder(g, h) ==> x in Elems(MergeOrder(g, h));
  }

  // The new block is a tip and its parents no longer are.
  lemma TipsAfter(g: Dag, h: Header, d: GhostdagData)
    requires Grounded(g) && h.hash !in g.headers && h.hash !in h.parents
    ensures Tips(Attach(g, h, d)) == Tips(g) - Elems(h.parents) + {h.hash}
  {
    ParentsHeld(g);
    var g' := Attach(g, h, d);
    forall b ensures b in Tips(g') <==> b in Tips(g) - Elems(h.parents) + {h.hash} {
      if b in g.headers && IsTip(g', b) {
        assert h.hash in g'.headers;
        forall x | x in g.headers ensures b !in g.headers[x].parents {
          assert x in g'.headers;
        }
      }
    }
  }

  // `b` is listed as a child of `p`.
  predicate IsChild(children: map<Id, seq<Id>>, p: Id, b: Id) {
    p in children && b in children[p]
  }

  ghost predicate EdgesExact(children: map<Id, seq<Id>>, hs: Headers) {
    forall p, b {:trigger IsChild(children, p, b)} ::
      IsChild(children, p, b) <==> (b in hs && p in hs[b].parents)
  }

  function Inserted(g: Dag, q: seq<Id>, b: Id): seq<Id>
    decreases |q|
  {
    if q == [] || Below(g, b, q[0]) then [b] + q else [q[0]] + Inserted(g, q[1..], b)
  }

  lemma PassOver(g: Dag, q: seq<Id>, b: Id, i: nat)
    requires i < |q| && !Below(g, b, q[i])
    ensures q[..i] + Inserted(g, q[i..], b) == q[..i + 1] + Inserted(g, q[i + 1..], b)
  {
    assert q[i..][1..] == q[i + 1..];
    assert q[..i + 1] == q[..i] + [q[i]];
    assert q[..i] + ([q[i]] + Inserted(g, q[i + 1..], b)) == q[..i] + [q[i]] + Inserted(g, q[i + 1..], b);
  }

  lemma StopAt(g: Dag, q: seq<Id>, b: Id, i: nat)
    requires i <= |q| && (i < |q| ==> Below(g, b, q[i]))
    ensures q[..i] + Inserted(g, q[i..], b) == q[..i] + [b] + q[i..]
  {
    assert Inserted(g, q[i..], b) == [b] + q[i..];
    assert q[..i] + ([b] + q[i..]) == q[..i] + [b] + q[i..];
  }

  lemma {:induction false} InsertedAscends(g: Dag, q: seq<Id>, b: Id)
    requires Ascending(g, q) && b !in q
    ensures Ascending(g, Inserted(g, q, b)) && Elems(Inserted(g, q, b)) == Elems(q) + {b}
    decreases |q|
  {
    var r := Inserted(g, q, b);
    if q == [] || Below(g, b, q[0]) {
      assert r == [b] + q;
      assert forall x :: x in r <==> x == b || x in q;
    } else {
      InsertedAscends(g, q[1..], b);
      var tail := Inserted(g, q[1..], b);
      assert forall x :: x in r <==> x == q[0] || x in tail;
      assert forall x :: x in q <==> x == q[0] || x in q[1..];
      forall x | x in tail ensures Below(g, q[0], x) {
        assert x in Elems(tail);
        if x != b { var i :| 0 <= i < |q| - 1 && q[i + 1] == x; }
      }
      assert forall x :: x in Elems(r) <==> x == q[0] || x in Elems(tail);
    }
  }

  lemma ReversedFrom(q: seq<Id>, i: nat, out: seq<Id>)
    requires i < |q|
    ensures Reversed(q[i..]) + out == Reversed(q[i + 1..]) + ([q[i]] + out)
  {
    assert q[i..][1..] == q[i + 1..];
    assert Reversed(q[i + 1..]) + [q[i]] + out == Reversed(q[i + 1..]) + ([q[i]] + out);
  }

  class DagStore {
    const k: nat
    const genesis: Id
    const limit: nat
    var headers: Headers
    var data: map<Id, GhostdagData>
    var children: map<Id, seq<Id>>
    var tips: set<Id>
    var reachability: Cache

    ghost function View(): Dag
      reads this
    {
      Dag(genesis, k, limit, headers, data)
    }

    ghost predicate Valid()
      reads this
    {
      && Consistent(View())
      && tips == Tips(View())
      && EdgesExact(children, headers)
      && CacheSound(headers, reachability)
    }

    constructor (root: Header, k: nat, limit: nat)
      requires root.parents == []
      ensures Valid() && View() == NewDag(root, k, limit)
    {
      this.k := k;
      this.limit := limit;
      genesis := root.hash;
      headers := map[root.hash := root];
      data := map[root.hash := GenesisData(root)];
      children := map[];
      tips := {root.hash};
      reachability := map[];
      new;
      NewIsConsistent(root, k, limit);
    }

    // A remembered answer if there is one, else the closure of parent edges; and
    // what is remembered afterwards.
    method IsAncestorOf(ancestor: Id, descendant: Id) returns (r: bool)
      requires Grounded(View())
      modifies this`reachability
      ensures old(ancestor != descendant && (descendant, ancestor) in reachability) ==>
                r == old(reachability)[(descendant, ancestor)] && reachability == old(reachability)
      ensures ancestor == descendant ==> r && reachability == old(reachability)
      ensures old(ancestor != descendant && (descendant, ancestor) !in reachability) ==>
                && (r <==> Reaches(headers, ancestor, descendant))
                && reachability == Remember(old(reachability), descendant, ancestor, r)
      ensures old(CacheSound(headers, reachability)) && descendant in headers ==>
                CacheSound(headers, reachability) && (r <==> Reaches(headers, ancestor, descendant))
    {
      ReachesSelf(headers, descendant);
      if ancestor == descendant {
        return true;
      }
      if (descendant, ancestor) in reachability {
        return reachability[(descendant, ancestor)];
      }
      var ancestorHeight := TopologicalHeight(ancestor);
      var descendantHeight := TopologicalHeight(descendant);
      if descendantHeight <= ancestorHeight {
        NotBelow(ancestor, descendant);
        reachability := Remember(reachability, descendant, ancestor, false);
        return false;
      }
      var found := Search(ancestor, descendant);
      reachability := Remember(reachability, descendant, ancestor, found);
      return found;
    }

    lemma NotBelow(ancestor: Id, descendant: Id)
      requires Grounded(View()) && ancestor != descendant
      requires Height(View(), descendant) <= Height(View(), ancestor)
      ensures !Reaches(headers, ancestor, descendant)
    {
      if Reaches(headers, ancestor, descendant) {
        var p := ReachesSplit(headers, ancestor, descendant);
        AncestorsAreLower(View(), ancestor, descendant);
      }
    }

    // The breadth-first search proper, pruned at the ancestor's height.
    method Search(ancestor: Id, descendant: Id) returns (found: bool)
      requires Grounded(View()) && descendant in headers && ancestor != descendant
      ensures found <==> Reaches(headers, ancestor, descendant)
    {
      ghost var g := View();
      var ancestorHeight := TopologicalHeight(ancestor);
      var seen := {descendant};
      var queue := [descendant];
      found := false;
      ReachesSelf(headers, descendant);
      while queue != [] && !found
        invariant g == View() && ancestorHeight == Height(g, ancestor)
        invariant descendant in seen && seen <= headers.Keys && ancestor !in seen
        invariant forall x :: x in queue ==> x in seen
        invariant forall x :: x in seen ==> Reaches(headers, x, descendant)
        invariant found ==> Reaches(headers, ancestor, descendant)
        invariant !found ==> forall x :: x in seen && x !in queue ==> Explored(g, ancestor, seen, x)
        decreases headers.Keys - seen, |queue|
      {
        var current := queue[0];
        ghost var before := queue;
        queue := queue[1..];
        assert forall x :: x in before <==> x == current || x in queue;
        var parents := headers[current].parents;
        var i := 0;
        ghost var seen0 := seen;
        while i < |parents| && !found
          invariant 0 <= i <= |parents| && g == View()
          invariant seen0 <= seen <= headers.Keys && descendant in seen && ancestor !in seen
          invariant forall x :: x in queue ==> x in seen
          invariant forall x :: x in seen ==> Reaches(headers, x, descendant)
          invariant found ==> Reaches(headers, ancestor, descendant)
          invariant seen == seen0 ==> queue == before[1..]
          invariant !found ==> forall x :: x in seen && x !in queue && x != current ==> Explored(g, ancestor, seen, x)
          invariant !found ==> forall j :: 0 <= j < i ==>
            parents[j] != ancestor && (Height(g, parents[j]) <= ancestorHeight || parents[j] in seen)
          decreases |parents| - i, !found
        {
          var parent := parents[i];
          ParentIsLower(g, parent, current);
          StepBelow(parent, current, descendant);
          if parent == ancestor {
            found := true;
          } else {
            var parentHeight := TopologicalHeight(parent);
            if parentHeight > ancestorHeight && parent !in seen {
              seen := seen + {parent};
              queue := queue + [parent];
            }
            i := i + 1;
          }
        }
      }
      if !found {
        ExhaustedSearch(g, ancestor, descendant, seen);
      }
    }

    lemma StepBelow(parent: Id, current: Id, descendant: Id)
      requires current in headers && parent in headers[current].parents
      requires Reaches(headers, current, descendant)
      ensures Reaches(headers, parent, descendant)
    {
      ReachesParent(headers, parent, current);
      ReachesTrans(headers, parent, current, descendant);
    }

    method TopologicalHeight(b: Id) returns (h: nat)
      ensures h == Height(View(), b)
    {
      h := if b in data then data[b].height else 0;
    }
 
    // `ordered_mergeset`: a walk from the other parents, stopping at the selected
    // parent's past, then the topological sort.
    method OrderedMergeset(header: Header, sp: Id) returns (r: Result<seq<Id>>)
      requires Attachable(View(), header) && sp == SelectedParent(View(), header)
      requires CacheSound(headers, reachability)
      modifies this`reachability
      ensures CacheSound(headers, reachability)
      ensures r == if |Merged(View(), header)| > limit then Err(MergesetTooLarge(header.hash, limit))
                   else Ok(MergeOrder(View(), header))
    {
      ghost var g := View();
      SelectedParentIsParent(g, header);
      var mergeset: seq<Id> := [];
      var seen, queue := Enqueue(header.parents, sp, {}, []);
      Seeded(g, header, seen);
      while queue != []
        invariant g == View() && CacheSound(headers, reachability)
        invariant Queued(g, header, seen, queue, mergeset) && seen <= headers.Keys
        invariant Distinct(queue) && |mergeset| <= limit
        decreases headers.Keys - seen, |queue|
      {
        var full;
        full, seen, queue, mergeset := VisitNext(header, sp, seen, queue, mergeset);
        if full {
          return Err(MergesetTooLarge(header.hash, limit));
        }
      }
      r := SortCollected(header, seen, mergeset);
    }

    // One block off the worklist: in the selected parent's past, or collected.
    method VisitNext(header: Header, sp: Id, seen0: set<Id>, queue0: seq<Id>, mergeset0: seq<Id>)
      returns (full: bool, seen: set<Id>, queue: seq<Id>, mergeset: seq<Id>)
      requires Attachable(View(), header) && sp == SelectedParent(View(), header)
      requires CacheSound(headers, reachability)
      requires queue0 != [] && Distinct(queue0) && |mergeset0| <= limit
      requires Queued(View(), header, seen0, queue0, mergeset0)
      modifies this`reachability
      ensures CacheSound(headers, reachability)
      ensures full ==> |Merged(View(), header)| > limit
      ensures !full ==>
        && Queued(View(), header, seen, queue, mergeset) && Distinct(queue) && |mergeset| <= limit
        && seen0 <= seen <= headers.Keys && (seen == seen0 ==> |queue| < |queue0|)
    {
      full, seen, queue, mergeset := false, seen0, queue0[1..], mergeset0;
      var current := queue0[0];
      SelectedParentIsParent(View(), header);
      var inPast := IsAncestorOf(current, sp);
      if inPast {
        Skipped(View(), header, seen0, queue0, mergeset0);
      } else if |mergeset| + 1 > limit {
        TooMany(View(), header, seen0, queue0, mergeset0);
        full := true;
      } else {
        seen, queue := Enqueue(headers[current].parents, sp, seen0, queue0[1..]);
        Kept(View(), header, seen0, queue0, mergeset0, seen, queue);
        mergeset := mergeset0 + [current];
      }
    }

    // What was collected when the worklist ran dry, sorted.
    method SortCollected(ghost header: Header, ghost seen: set<Id>, mergeset: seq<Id>) returns (r: Result<seq<Id>>)
      requires Attachable(View(), header) && Queued(View(), header, seen, [], mergeset)
      ensures |mergeset| == |Merged(View(), header)| && r == Ok(MergeOrder(View(), header))
    {
      ExhaustedWalk(View(), header, seen, Elems(mergeset));
      DistinctCount(mergeset);
      var order := SortTopologically(mergeset);
      r := Ok(order);
    }

    // Appends the unseen parents other than the selected one.
    method Enqueue(parents: seq<Id>, sp: Id, seen0: set<Id>, queue0: seq<Id>) returns (seen: set<Id>, queue: seq<Id>)
      requires Distinct(queue0) && Elems(queue0) <= seen0
      ensures seen == seen0 + OtherParents(parents, sp)
      ensures Distinct(queue) && Elems(queue) == Elems(queue0) + (seen - seen0)
      ensures seen == seen0 ==> queue == queue0
    {
      seen, queue := seen0, queue0;
      for i := 0 to |parents|
        invariant seen == seen0 + OtherParents(parents[..i], sp)
        invariant Distinct(queue) && Elems(queue) == Elems(queue0) + (seen - seen0)
        invariant seen == seen0 ==> queue == queue0
      {
        assert parents[..i + 1] == parents[..i] + [parents[i]];
        if parents[i] != sp && parents[i] !in seen {
          assert parents[i] !in Elems(queue);
          seen := seen + {parents[i]};
          queue := queue + [parents[i]];
        }
      }
      assert parents[..|parents|] == parents;
    }

    // `topological_sort`: ascending by (blue work, hash), then sweeps.
    method SortTopologically(blocks: seq<Id>) returns (out: seq<Id>)
      requires Distinct(blocks)
      ensures out == TopologicalSort(View(), Elems(blocks))
    {
      var remaining := SortByWork(blocks);
      out := [];
      ghost var members := Elems(blocks);
      ghost var goal := TopologicalSort(View(), members);
      assert forall p :: p in blocks <==> p in members;
      while remaining != []
        invariant Sweeps(View(), members, remaining, out) == goal
        decreases |remaining|
      {
        var count := |remaining|;
        ghost var out0 := out;
        var left: seq<Id> := [];
        var progressed := false;
        for i := 0 to |remaining|
          invariant Sweep(View(), members, remaining[i..], out, left) == Sweep(View(), members, remaining, out0, [])
          invariant progressed <==> |left| < i
          invariant |left| <= i
        {
          var block := remaining[i];
          assert remaining[i..][0] == block && remaining[i..][1..] == remaining[i + 1..];
          var ready := IsReady(blocks, out, block);
          if ready {
            out := out + [block];
            progressed := true;
          } else {
            left := left + [block];
          }
        }
        assert remaining[|remaining|..] == [];
        if !progressed {
          out := out + left;
          break;
        }
        remaining := left;
      }
    }

    method IsReady(blocks: seq<Id>, out: seq<Id>, block: Id) returns (ready: bool)
      ensures ready <==> Ready(View(), Elems(blocks), out, block)
    {
      assert forall p :: p in blocks <==> p in Elems(blocks);
      if block !in headers {
        return true;
      }
      var parents := headers[block].parents;
      for i := 0 to |parents|
        invariant forall p :: p in parents[..i] ==> p !in blocks || p in out
      {
        if parents[i] in blocks && parents[i] !in out {
          return false;
        }
      }
      return true;
    }

    // `sort_by(compare_blocks)`
    method SortByWork(blocks: seq<Id>) returns (sorted: seq<Id>)
      requires Distinct(blocks)
      ensures sorted == Sorted(View(), Elems(blocks))
    {
      sorted := [];
      for i := 0 to |blocks|
        invariant Ascending(View(), sorted) && Elems(sorted) == Elems(blocks[..i])
      {
        assert blocks[i] !in Elems(blocks[..i]) && Elems(blocks[..i + 1]) == Elems(blocks[..i]) + {blocks[i]};
        InsertedAscends(View(), sorted, blocks[i]);
        sorted := InsertByWork(sorted, blocks[i]);
      }
      assert blocks[..|blocks|] == blocks;
      AscendingIsSorted(View(), sorted, Elems(blocks));
    }

    method InsertByWork(q: seq<Id>, b: Id) returns (r: seq<Id>)
      ensures r == Inserted(View(), q, b)
    {
      ghost var goal := Inserted(View(), q, b);
      var i := 0;
      while i < |q|
        invariant 0 <= i <= |q|
        invariant goal == q[..i] + Inserted(View(), q[i..], b)
      {
        var less := CompareLess(b, q[i]);
        if less {
          break;
        }
        PassOver(View(), q, b, i);
        i := i + 1;
      }
      StopAt(View(), q, b, i);
      r := q[..i] + [b] + q[i..];
    }

    // `compare_blocks`
    method CompareLess(a: Id, b: Id) returns (less: bool)
      ensures less <==> Below(View(), a, b)
    {
      var workA: U256 := if a in data then data[a].blueWork else 0;
      var workB: U256 := if b in data then data[b].blueWork else 0;
      less := workA < workB || (workA == workB && a < b);
    }

    // One of `colour_candidate`'s inner loops: the listed blues outside the
    // candidate's past, with the room they and it have left.
    method ScanBlues(c: Id, blues: seq<Id>, sizes: map<Id, nat>, count0: nat, updates0: seq<(Id, nat)>)
      returns (v: Verdict)
      requires Grounded(View()) && c in headers && CacheSound(headers, reachability)
      modifies this`reachability
      ensures CacheSound(headers, reachability)
      ensures v == Scan(View(), c, blues, sizes, count0, updates0)
    {
      var count: nat, updates := count0, updates0;
      ghost var goal := Scan(View(), c, blues, sizes, count0, updates0);
      for i := 0 to |blues|
        invariant CacheSound(headers, reachability)
        invariant goal == Scan(View(), c, blues[i..], sizes, count, updates)
      {
        assert blues[i..][1..] == blues[i + 1..];
        var below := IsAncestorOf(blues[i], c);
        if !below {
          count := count + 1;
          if count > k {
            return Red;
          }
          var existing := SizeOf(sizes, blues[i]);
          if existing >= k {
            return Red;
          }
          updates := updates + [(blues[i], existing + 1)];
        }
      }
      v := Blue(count, updates);
    }

    // `colour_candidate`
    method ColourOne(c: Id, sp: Id, blues: seq<Id>, sizes: map<Id, nat>) returns (v: Verdict)
      requires Grounded(View()) && c in headers && sp in headers && CacheSound(headers, reachability)
      modifies this`reachability
      ensures CacheSound(headers, reachability)
      ensures v == ColourCandidate(View(), c, sp, blues, sizes)
    {
      if |blues| > k {
        return Red;
      }
      ghost var goal := ColourCandidate(View(), c, sp, blues, sizes);
      v := ScanBlues(c, blues, sizes, 0, []);
      var chain := sp;
      while v.Blue?
        invariant CacheSound(headers, reachability) && chain in headers
        invariant goal == if v.Red? then Red else ScanChain(View(), c, chain, v.anticone, v.updates)
        decreases data[chain].height, v.Blue?
      {
        var below := IsAncestorOf(chain, c);
        if below {
          return;
        }
        v := ScanBlues(c, data[chain].blues, data[chain].anticoneSizes, v.anticone, v.updates);
        if chain == genesis {
          return;
        }
        assert Placed(View(), chain);
        if v.Blue? {
          chain := data[chain].selectedParent;
        }
      }
    }

    // `select_parent`
    method SelectGreatest(parents: seq<Id>) returns (best: Id)
      requires parents != []
      ensures best == SelectParent(View(), parents[0], parents[1..])
    {
      best := parents[0];
      ghost var goal := SelectParent(View(), parents[0], parents[1..]);
      for i := 1 to |parents|
        invariant goal == SelectParent(View(), best, parents[i..])
      {
        assert parents[i..][1..] == parents[i + 1..];
        var better := CompareLess(best, parents[i]);
        if better {
          best := parents[i];
        }
      }
    }

    // `compute_ghostdag`
    method ComputeGhostdag(header: Header) returns (r: Result<GhostdagData>)
      requires Attachable(View(), header) && CacheSound(headers, reachability)
      modifies this`reachability
      ensures CacheSound(headers, reachability)
      ensures r == Derive(View(), header)
    {
      ghost var g := View();
      SelectedParentIsParent(g, header);
      var sp := SelectGreatest(header.parents);
      var mergeset := OrderedMergeset(header, sp);
      if mergeset.Err? {
        return Err(mergeset.error);
      }
      var ordered := mergeset.value;
      MergeOrderHeld(g, header);
      var col := InitialColouring(sp);
      for i := 0 to |ordered|
        invariant g == View() && CacheSound(headers, reachability)
        invariant Coloured(g, header) == ColourAll(g, sp, ordered[i..], col)
      {
        assert ordered[i..][1..] == ordered[i + 1..];
        assert ordered[i] in ordered;
        var v := ColourOne(ordered[i], sp, col.blues, col.sizes);
        col := Colour(col, ordered[i], v);
      }
      var d := Total(header, sp, ordered, col);
      r := Ok(d);
    }

    // Blue score, blue work and height, accumulated over the blues and parents.
    method Total(header: Header, sp: Id, ordered: seq<Id>, col: Colouring) returns (d: GhostdagData)
      requires sp in data && |col.blues| >= 1
      ensures d == Assemble(View(), header, sp, ordered, col)
    {
      var work := data[sp].blueWork;
      ghost var goal := AddWork(View(), work, col.blues[1..]);
      for i := 1 to |col.blues|
        invariant goal == AddWork(View(), work, col.blues[i..])
      {
        assert col.blues[i..][1..] == col.blues[i + 1..];
        work := Work.SaturatingAdd(work,
            if col.blues[i] in headers then Work.ForBits(headers[col.blues[i]].bits) else 0);
      }
      work := Work.SaturatingAdd(work, Work.ForBits(header.bits));
      var highest := 0;
      ghost var top := MaxHeight(View(), 0, header.parents);
      for i := 0 to |header.parents|
        invariant top == MaxHeight(View(), highest, header.parents[i..])
      {
        assert header.parents[i..][1..] == header.parents[i + 1..];
        var height := TopologicalHeight(header.parents[i]);
        if height > highest {
          highest := height;
        }
      }
      d := GhostdagData(sp, data[sp].blueScore + |col.blues|, work, col.blues, col.reds, ordered, highest + 1,
          col.sizes);
    }

    // The first parent not held, if any.
    method FindMissing(parents: seq<Id>) returns (missing: Option<Id>)
      ensures missing == FirstMissing(View(), parents)
    {
      ghost var goal := FirstMissing(View(), parents);
      for i := 0 to |parents|
        invariant goal == FirstMissing(View(), parents[i..])
      {
        assert parents[i..][1..] == parents[i + 1..];
        if parents[i] !in headers {
          return Some(parents[i]);
        }
      }
      missing := None;
    }

    // Child edges for a block about to join; its parents are no longer tips.
    method LinkToParents(hash: Id, parents: seq<Id>)
      requires EdgesExact(children, headers)
      modifies this`children, this`tips
      ensures tips == old(tips) - Elems(parents)
      ensures forall p, b {:trigger IsChild(children, p, b)} ::
                IsChild(children, p, b) <==> ((b in headers && p in headers[b].parents) || (b == hash && p in parents))
    {
      for i := 0 to |parents|
        invariant tips == old(tips) - Elems(parents[..i])
        invariant forall p, b {:trigger IsChild(children, p, b)} ::
          IsChild(children, p, b) <==> ((b in headers && p in headers[b].parents) || (b == hash && p in parents[..i]))
      {
        assert parents[..i + 1] == parents[..i] + [parents[i]];
        var p := parents[i];
        ghost var before := children;
        children := children[p := (if p in children then children[p] else []) + [hash]];
        assert forall q, b {:trigger IsChild(children, q, b)} ::
            IsChild(children, q, b) <==> (IsChild(before, q, b) || (q == p && b == hash));
        tips := tips - {p};
      }
      assert parents[..|parents|] == parents;
    }

    // `add_block`: rejected headers change nothing but remembered answers.
    method Add(header: Header) returns (r: Result<Id>)
      requires Valid()
      modifies this
      ensures Valid()
      ensures match old(AddBlock(View(), header))
              case Ok(g) => View() == g && r == Ok(header.hash)
              case Err(e) => View() == old(View()) && r == Err(e) && tips == old(tips) && children == old(children)
    {
      var hash := header.hash;
      if hash in headers {
        return Err(AlreadyPresent(hash));
      }
      if header.parents == [] {
        return Err(NoParents(hash));
      }
      var missing := FindMissing(header.parents);
      if missing.Some? {
        return Err(MissingParent(hash, missing.value));
      }
      var derived := ComputeGhostdag(header);
      assert View() == old(View()) && EdgesExact(children, headers);
      if derived.Err? {
        return Err(derived.error);
      }
      r := Ok(hash);
      Join(header, derived.value);
    }

    method Join(header: Header, d: GhostdagData)
      requires Valid() && AddBlock(View(), header) == Ok(Attach(View(), header, d))
      modifies this
      ensures Valid() && View() == old(Attach(View(), header, d))
    {
      var hash := header.hash;
      ghost var g := View();
      AddBlockKeepsConsistent(g, header);
      TipsAfter(g, header, d);
      GrowthKeepsSound(headers, headers[hash := header], reachability);
      LinkToParents(hash, header.parents);
      tips := tips + {hash};
      headers := headers[hash := header];
      data := data[hash := d];
      assert View() == Attach(g, header, d);
    }

    method ListTips() returns (listed: seq<Id>)
      ensures Distinct(listed) && Elems(listed) == tips
    {
      var pending := tips;
      listed := [];
      while pending != {}
        invariant Distinct(listed) && Elems(listed) + pending == tips && Elems(listed) !! pending
        decreases pending
      {
        var t :| t in pending;
        assert t !in Elems(listed);
        listed := listed + [t];
        pending := pending - {t};
      }
    }

    // `tips`: the current tips, most blue work first.
    method TipsByWork() returns (out: seq<Id>)
      requires Valid()
      ensures out == TipList(View())
    {
      var listed := ListTips();
      var sorted := SortByWork(listed);
      out := [];
      ghost var goal := Reversed(sorted);
      for i := 0 to |sorted|
        invariant goal == Reversed(sorted[i..]) + out
      {
        ReversedFrom(sorted, i, out);
        out := [sorted[i]] + out;
      }
    }

    method SelectedTip() returns (tip: Id)
      requires Valid()
      ensures tip == VirtualSelectedParent(View())
    {
      var ordered := TipsByWork();
      tip := if ordered == [] then genesis else ordered[0];
    }

    // `selected_parent_chain`
    method SelectedParentChain(tip: Id) returns (chain: seq<Id>)
      requires Valid()
      ensures chain == SelectedChain(View(), tip)
    {
      chain := [];
      var cursor := tip;
      ghost var goal := SelectedChain(View(), tip);
      while cursor in data && cursor != genesis
        invariant goal == chain + SelectedChain(View(), cursor)
        decreases Height(View(), cursor)
      {
        assert Placed(View(), cursor);
        chain := chain + [cursor];
        cursor := data[cursor].selectedParent;
      }
      chain := chain + [cursor];
    }
  }
}
