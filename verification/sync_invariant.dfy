// What every run of the synchronisation machine keeps.
module SyncInvariant {
  import opened Blocks
  import opened Seqs
  import opened Ghostdag
  import opened OrderIndependence
  import opened SortedKeys
  import opened Protocol
  import opened Sync

  type Orphans = map<Id, Orphan>
  type Waiting = map<Id, set<Id>>

  // The eviction queue lists the orphans, each once.
  ghost predicate Listed(order: seq<Id>, orphans: Orphans) {
    Distinct(order) && forall h :: h in order <==> h in orphans
  }

  // Orphans are filed under their own hashes and are not in the DAG.
  ghost predicate Stored(orphans: Orphans, held: set<Id>) {
    forall h :: h in orphans ==> orphans[h].header.hash == h && h !in held
  }

  // `c` is an orphan missing its parent `p`.
  predicate Awaits(orphans: Orphans, held: set<Id>, p: Id, c: Id) {
    c in orphans && p in orphans[c].header.parents && p !in held
  }

  ghost predicate Tracks(waiting: Waiting, orphans: Orphans, held: set<Id>, p: Id) {
    forall c {:trigger Awaits(orphans, held, p, c)} {:trigger c in Waits(waiting, p)} ::
      c in Waits(waiting, p) <==> Awaits(orphans, held, p, c)
  }

  // The waiting index is exactly the orphan/missing-parent relation.
  ghost predicate WaitingExact(waiting: Waiting, orphans: Orphans, held: set<Id>) {
    && (forall p {:trigger Tracks(waiting, orphans, held, p)} :: Tracks(waiting, orphans, held, p))
    && NoneEmpty(waiting)
  }

  ghost predicate NoneEmpty(waiting: Waiting) {
    forall p :: p in waiting ==> waiting[p] != {}
  }

  predicate Complete(orphans: Orphans, held: set<Id>, c: Id) {
    c in orphans && forall p :: p in orphans[c].header.parents ==> p in held
  }

  // No orphan has all its parents.
  ghost predicate NoneComplete(orphans: Orphans, held: set<Id>) {
    forall c {:trigger Complete(orphans, held, c)} :: !Complete(orphans, held, c)
  }

  // Requests are owed by connected peers, for blocks neither held nor orphaned.
  ghost predicate RequestsOwed(requested: map<Id, Request>, peers: set<PeerId>, orphans: Orphans, held: set<Id>) {
    forall h :: h in requested ==> requested[h].owner in peers && h !in held && h !in orphans
  }

  function Bound(config: Config): nat {
    if config.maxOrphans == 0 then 1 else config.maxOrphans
  }

  ghost predicate Inv(config: Config, s: State) {
    var held := s.dag.headers.Keys;
    && Listed(s.order, s.orphans) && |s.orphans| <= Bound(config)
    && Stored(s.orphans, held)
    && WaitingExact(s.waiting, s.orphans, held)
    && NoneComplete(s.orphans, held)
    && RequestsOwed(s.requested, s.peers.Keys, s.orphans, held)
  }

  /* ---------- resolution ---------- */

  // Blocks outside the DAG are waited on exactly; blocks in it only while queued.
  ghost predicate WaitingPending(waiting: Waiting, orphans: Orphans, held: set<Id>, queue: seq<Id>) {
    && (forall p {:trigger Tracks(waiting, orphans, held, p)} :: p !in held ==> Tracks(waiting, orphans, held, p))
    && (forall p :: p in waiting && p in held ==> p in queue)
    && NoneEmpty(waiting)
  }

  ghost predicate Due(waiting: Waiting, queue: seq<Id>, children: seq<Id>, c: Id) {
    c in children || exists p :: p in queue && c in Waits(waiting, p)
  }

  // A complete orphan's turn is still to come.
  ghost predicate TurnsCome(waiting: Waiting, orphans: Orphans, held: set<Id>, queue: seq<Id>, children: seq<Id>) {
    forall c {:trigger Complete(orphans, held, c)} :: Complete(orphans, held, c) ==> Due(waiting, queue, children, c)
  }

  ghost predicate Resolving(s: State, queue: seq<Id>, children: seq<Id>, bound: nat) {
    var held := s.dag.headers.Keys;
    && Listed(s.order, s.orphans) && |s.orphans| <= bound
    && Stored(s.orphans, held)
    && WaitingPending(s.waiting, s.orphans, held, queue)
    && TurnsCome(s.waiting, s.orphans, held, queue, children)
    && RequestsOwed(s.requested, s.peers.Keys, s.orphans, held)
  }

  lemma {:induction false} WithoutLists(order: seq<Id>, h: Id)
    ensures forall x :: x in Without(order, h) <==> x in order && x != h
    ensures Distinct(order) ==> Distinct(Without(order, h))
    decreases |order|
  {
    if order != [] {
      WithoutLists(order[1..], h);
      var rest := Without(order[1..], h);
      if Distinct(order) && order[0] != h {
        assert forall x :: x in rest ==> x in order[1..];
        DistinctConcat([order[0]], rest);
      }
    }
  }

  lemma GrownIsConsistent(g: Dag, h: Header)
    requires Consistent(g) && Grown(g, h).Some?
    ensures Consistent(Grown(g, h).value) && Grown(g, h).value.headers == g.headers[h.hash := h]
    ensures h.hash !in g.headers && AllHeld(g, h.parents)
    ensures Grown(g, h).value.headers.Keys == g.headers.Keys + {h.hash}
  {
    AddBlockKeepsConsistent(g, h);
  }

  // Taking a complete orphan out leaves the index as exact as it was.
  lemma LetGo(waiting: Waiting, orphans: Orphans, held: set<Id>, queue: seq<Id>, children: seq<Id>, child: Id)
    requires WaitingPending(waiting, orphans, held, queue) && Complete(orphans, held, child)
    requires TurnsCome(waiting, orphans, held, queue, [child] + children)
    ensures WaitingPending(waiting, orphans - {child}, held, queue)
    ensures TurnsCome(waiting, orphans - {child}, held, queue, children)
  {
    var left := orphans - {child};
    forall p | p !in held ensures Tracks(waiting, left, held, p) {
      assert Tracks(waiting, orphans, held, p);
      forall c ensures Awaits(orphans, held, p, c) <==> Awaits(left, held, p, c) {}
    }
    forall c | Complete(left, held, c) ensures Due(waiting, queue, children, c) {
      assert Complete(orphans, held, c);
      assert Due(waiting, queue, [child] + children, c);
    }
  }

  // A block joining the DAG is queued, so whoever it completes is due.
  lemma Joined(waiting: Waiting, orphans: Orphans, held: set<Id>, queue: seq<Id>, children: seq<Id>, b: Id)
    requires WaitingPending(waiting, orphans, held, queue) && TurnsCome(waiting, orphans, held, queue, children)
    requires b !in held
    ensures WaitingPending(waiting, orphans, held + {b}, queue + [b])
    ensures TurnsCome(waiting, orphans, held + {b}, queue + [b], children)
  {
    var held' := held + {b};
    forall p | p !in held' ensures Tracks(waiting, orphans, held', p) {
      assert Tracks(waiting, orphans, held, p);
      forall c ensures Awaits(orphans, held, p, c) <==> Awaits(orphans, held', p, c) {}
    }
    forall c | Complete(orphans, held', c) ensures Due(waiting, queue + [b], children, c) {
      if Complete(orphans, held, c) {
        assert Due(waiting, queue, children, c);
        assert forall p :: p in queue ==> p in queue + [b];
      } else {
        assert Tracks(waiting, orphans, held, b) && Awaits(orphans, held, b, c);
        assert b in queue + [b] && c in Waits(waiting, b);
      }
    }
  }

  lemma AnnounceKeepsRest(s: State, hash: Id, exclude: Option<PeerId>)
    ensures var s' := Announce(s, hash, exclude).0; s' == s.(peers := s'.peers) && s'.peers.Keys == s.peers.Keys
  {
  }

  // What a release leaves, but for what peers are known to hold.
  lemma ReleaseLeaves(s: State, child: Id)
    requires Consistent(s.dag) && child in s.orphans && s.orphans[child].header.hash == child
    ensures var (s', _, more) := Release(s, child);
      && s'.orphans == s.orphans - {child} && s'.order == Without(s.order, child)
      && s'.waiting == s.waiting && s'.requested == s.requested && s'.peers.Keys == s.peers.Keys
      && Consistent(s'.dag)
      && (if Grown(s.dag, s.orphans[child].header).Some?
          then s'.dag.headers == s.dag.headers[child := s.orphans[child].header] && child !in s.dag.headers && more == [child]
               && s'.accepted == s.accepted + [child]
          else s'.dag == s.dag && more == [] && s'.accepted == s.accepted)
      && s'.bodies == s.bodies
  {
    var h := s.orphans[child].header;
    if Grown(s.dag, h).Some? {
      GrownIsConsistent(s.dag, h);
      AnnounceKeepsRest(s.(orphans := s.orphans - {child}, order := Without(s.order, child), dag := Grown(s.dag, h).value,
                           accepted := s.accepted + [child]), child, Some(s.orphans[child].source));
    }
  }

  lemma ReleaseKeeps(s: State, queue: seq<Id>, children: seq<Id>, child: Id, bound: nat)
    requires Consistent(s.dag) && Resolving(s, queue, [child] + children, bound) && Releasable(s, child)
    ensures var (s', _, more) := Release(s, child); Resolving(s', queue + more, children, bound)
  {
    ReleaseLeaves(s, child);
    var (s', _, more) := Release(s, child);
    ReleasedResolves(s, s', queue, children, child, bound);
    if more == [] {
      assert queue + more == queue;
    } else {
      assert s'.dag.headers.Keys == s.dag.headers.Keys + {child};
    }
  }

  // Letting a complete orphan go, whether or not it then joins the DAG.
  lemma ReleasedResolves(s: State, t: State, queue: seq<Id>, children: seq<Id>, child: Id, bound: nat)
    requires Resolving(s, queue, [child] + children, bound) && Releasable(s, child)
    requires t.orphans == s.orphans - {child} && t.order == Without(s.order, child)
    requires t.waiting == s.waiting && t.requested == s.requested && t.peers.Keys == s.peers.Keys
    ensures t.dag.headers.Keys == s.dag.headers.Keys ==> Resolving(t, queue, children, bound)
    ensures child !in s.dag.headers && t.dag.headers.Keys == s.dag.headers.Keys + {child} ==> Resolving(t, queue + [child], children, bound)
  {
    var held := s.dag.headers.Keys;
    WithoutLists(s.order, child);
    FewerKeys(s.orphans, child);
    assert Complete(s.orphans, held, child);
    LetGo(s.waiting, s.orphans, held, queue, children, child);
    if child !in held {
      Joined(s.waiting, t.orphans, held, queue, children, child);
    }
  }

  lemma FewerKeys(orphans: Orphans, h: Id)
    ensures |orphans - {h}| <= |orphans|
    ensures h in orphans ==> |orphans - {h}| == |orphans| - 1
  {
    assert (orphans - {h}).Keys == orphans.Keys - {h};
    SubsetCount(orphans.Keys - {h}, orphans.Keys);
  }

  // A child whose turn came too early still waits on someone.
  lemma PassedOver(s: State, queue: seq<Id>, children: seq<Id>, child: Id, bound: nat)
    requires Resolving(s, queue, [child] + children, bound) && !Releasable(s, child)
    ensures Resolving(s, queue, children, bound)
  {
    var held := s.dag.headers.Keys;
    forall c | Complete(s.orphans, held, c) ensures Due(s.waiting, queue, children, c) {
      assert Due(s.waiting, queue, [child] + children, c);
      assert c != child;
    }
  }

  lemma {:induction false} ReleaseAllKeeps(s: State, children: seq<Id>, actions: seq<Action>, queue: seq<Id>,
      bound: nat)
    requires Consistent(s.dag) && Resolving(s, queue, children, bound)
    ensures var (s', _, queue') := ReleaseAll(s, children, actions, queue); Consistent(s'.dag) && Resolving(s', queue', [], bound)
    decreases |children|
  {
    if children != [] {
      assert children == [children[0]] + children[1..];
      if Releasable(s, children[0]) {
        var (s1, a, more) := Release(s, children[0]);
        ReleaseLeaves(s, children[0]);
        ReleaseKeeps(s, queue, children[1..], children[0], bound);
        ReleaseAllKeeps(s1, children[1..], actions + a, queue + more, bound);
      } else {
        PassedOver(s, queue, children[1..], children[0], bound);
        ReleaseAllKeeps(s, children[1..], actions, queue, bound);
      }
    }
  }

  // Popping a block hands its waiters over as children.
  lemma Popped(s: State, queue: seq<Id>, bound: nat)
    requires queue != [] && queue[0] in s.dag.headers && Resolving(s, queue, [], bound)
    ensures queue[0] in s.waiting ==> Resolving(s.(waiting := s.waiting - {queue[0]}), queue[1..], Ascending(s.waiting[queue[0]]), bound)
    ensures queue[0] !in s.waiting ==> Resolving(s, queue[1..], [], bound)
  {
    var children := if queue[0] in s.waiting then Ascending(s.waiting[queue[0]]) else [];
    if queue[0] in s.waiting { AscendingLists(s.waiting[queue[0]]); }
    PoppedWaiting(s.waiting, s.orphans, s.dag.headers.Keys, queue);
    PoppedTurns(s.waiting, s.orphans, s.dag.headers.Keys, queue, children);
    assert queue[0] !in s.waiting ==> s.waiting - {queue[0]} == s.waiting;
  }

  lemma PoppedWaiting(waiting: Waiting, orphans: Orphans, held: set<Id>, queue: seq<Id>)
    requires queue != [] && queue[0] in held && WaitingPending(waiting, orphans, held, queue)
    ensures WaitingPending(waiting - {queue[0]}, orphans, held, queue[1..])
  {
    var left := waiting - {queue[0]};
    forall p | p !in held ensures Tracks(left, orphans, held, p) {
      assert Tracks(waiting, orphans, held, p);
      assert Waits(left, p) == Waits(waiting, p);
    }
    assert forall p :: p in queue <==> p == queue[0] || p in queue[1..];
  }

  lemma PoppedTurns(waiting: Waiting, orphans: Orphans, held: set<Id>, queue: seq<Id>, children: seq<Id>)
    requires queue != [] && TurnsCome(waiting, orphans, held, queue, [])
    requires forall c :: c in Waits(waiting, queue[0]) ==> c in children
    ensures TurnsCome(waiting - {queue[0]}, orphans, held, queue[1..], children)
  {
    var left, rest := waiting - {queue[0]}, queue[1..];
    forall c | Complete(orphans, held, c) ensures Due(left, rest, children, c) {
      assert Due(waiting, queue, [], c);
      var p :| p in queue && c in Waits(waiting, p);
      if p != queue[0] {
        assert p in rest && c in Waits(left, p);
      }
    }
  }

  ghost predicate AllIn(queue: seq<Id>, held: set<Id>) {
    forall p :: p in queue ==> p in held
  }

  lemma {:induction false} ReleaseAllQueues(s: State, children: seq<Id>, actions: seq<Action>, queue: seq<Id>,
      bound: nat)
    requires Consistent(s.dag) && Resolving(s, queue, children, bound) && AllIn(queue, s.dag.headers.Keys)
    ensures var (s', _, queue') := ReleaseAll(s, children, actions, queue); AllIn(queue', s'.dag.headers.Keys)
    decreases |children|
  {
    if children != [] {
      assert children == [children[0]] + children[1..];
      if Releasable(s, children[0]) {
        var (s1, a, more) := Release(s, children[0]);
        ReleaseLeaves(s, children[0]);
        ReleaseKeeps(s, queue, children[1..], children[0], bound);
        ReleaseAllQueues(s1, children[1..], actions + a, queue + more, bound);
      } else {
        PassedOver(s, queue, children[1..], children[0], bound);
        ReleaseAllQueues(s, children[1..], actions, queue, bound);
      }
    }
  }

  lemma {:induction false} ResolveKeeps(s: State, queue: seq<Id>, actions: seq<Action>, bound: nat)
    requires Consistent(s.dag) && Resolving(s, queue, [], bound) && AllIn(queue, s.dag.headers.Keys)
    ensures Consistent(Resolve(s, queue, actions).0.dag) && Resolving(Resolve(s, queue, actions).0, [], [], bound)
    decreases |s.orphans| + |queue|
  {
    if queue != [] {
      assert queue[0] in queue;
      Popped(s, queue, bound);
      if queue[0] in s.waiting {
        var children := Ascending(s.waiting[queue[0]]);
        var popped := s.(waiting := s.waiting - {queue[0]});
        var (s1, a, q) := ReleaseAll(popped, children, actions, queue[1..]);
        ReleaseAllKeeps(popped, children, actions, queue[1..], bound);
        ReleaseAllQueues(popped, children, actions, queue[1..], bound);
        ResolveKeeps(s1, q, a, bound);
      } else {
        ResolveKeeps(s, queue[1..], actions, bound);
      }
    }
  }
}
