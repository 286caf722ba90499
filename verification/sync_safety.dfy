// The synchronisation invariant over every run.
module SyncSafety {
  import opened Blocks
  import opened Seqs
  import opened Ghostdag
  import opened Protocol
  import opened Sync
  import opened SyncInvariant

  lemma InvIsResolved(config: Config, s: State)
    ensures Inv(config, s) <==> Resolving(s, [], [], Bound(config))
  {
    var held := s.dag.headers.Keys;
    if Resolving(s, [], [], Bound(config)) {
      forall p ensures Tracks(s.waiting, s.orphans, held, p) {
        if p in held {
          forall c ensures c in Waits(s.waiting, p) <==> Awaits(s.orphans, held, p, c) {}
        }
      }
      forall c ensures !Complete(s.orphans, held, c) {
        assert Complete(s.orphans, held, c) ==> Due(s.waiting, [], [], c);
      }
    }
    if Inv(config, s) {
      forall p | p in s.waiting ensures p !in held {
        assert Tracks(s.waiting, s.orphans, held, p);
        var c :| c in s.waiting[p];
        assert c in Waits(s.waiting, p);
      }
    }
  }

  /* ---------- a block joins ---------- */

  // The state an accepted block leaves to `resolve_orphans_of`.
  ghost function JoinedState(s: State, g: Dag, hash: Id, source: Option<PeerId>): State {
    Announce(s.(dag := g, accepted := s.accepted + [hash]), hash, source).0
  }

  lemma JoinedResolves(config: Config, s: State, h: Header, source: Option<PeerId>)
    requires Consistent(s.dag) && Inv(config, s) && Grown(s.dag, h).Some?
    requires h.hash !in s.orphans && h.hash !in s.requested
    ensures var g := Grown(s.dag, h).value; var t := JoinedState(s, g, h.hash, source);
      && Resolving(t, [h.hash], [], Bound(config))
      && t.dag == g && t.orphans == s.orphans && h.hash in g.headers
  {
    var g, b := Grown(s.dag, h).value, h.hash;
    GrownIsConsistent(s.dag, h);
    InvIsResolved(config, s);
    Joined(s.waiting, s.orphans, s.dag.headers.Keys, [], [], b);
    assert [] + [b] == [b];
    AnnounceKeepsRest(s.(dag := g, accepted := s.accepted + [b]), b, source);
  }

  lemma AcceptedKeeps(config: Config, s: State, h: Header, source: Option<PeerId>)
    requires Consistent(s.dag) && Inv(config, s) && Grown(s.dag, h).Some?
    requires h.hash !in s.orphans && h.hash !in s.requested
    ensures var t := AcceptedBlock(s, Grown(s.dag, h).value, h.hash, source).0; Consistent(t.dag) && Inv(config, t)
  {
    var g := Grown(s.dag, h).value;
    GrownIsConsistent(s.dag, h);
    JoinedResolves(config, s, h, source);
    var joined := JoinedState(s, g, h.hash, source);
    ResolveKeeps(joined, [h.hash], [], Bound(config));
    InvIsResolved(config, Resolve(joined, [h.hash], []).0);
    assert AcceptedBlock(s, g, h.hash, source).0 == Resolve(joined, [h.hash], []).0;
  }

  /* ---------- a block is held ---------- */

  lemma {:induction false} UnwaitAt(waiting: Waiting, parents: seq<Id>, h: Id, p: Id)
    ensures Waits(Unwait(waiting, parents, h), p) == if p in parents then Waits(waiting, p) - {h} else Waits(waiting, p)
    decreases |parents|
  {
    if parents != [] {
      var q := parents[0];
      var next := if q !in waiting then waiting
                  else if waiting[q] - {h} == {} then waiting - {q}
                  else waiting[q := waiting[q] - {h}];
      UnwaitAt(next, parents[1..], h, p);
      assert Waits(next, p) == if p == q then Waits(waiting, p) - {h} else Waits(waiting, p);
    }
  }

  lemma {:induction false} UnwaitNoneEmpty(waiting: Waiting, parents: seq<Id>, h: Id)
    requires NoneEmpty(waiting)
    ensures NoneEmpty(Unwait(waiting, parents, h))
    decreases |parents|
  {
    if parents != [] {
      var q := parents[0];
      var next := if q !in waiting then waiting
                  else if waiting[q] - {h} == {} then waiting - {q}
                  else waiting[q := waiting[q] - {h}];
      UnwaitNoneEmpty(next, parents[1..], h);
    }
  }

  lemma {:induction false} EnrolAt(waiting: Waiting, g: Dag, parents: seq<Id>, h: Id, p: Id)
    ensures Waits(Enrol(waiting, g, parents, h), p)
            == if p in parents && p !in g.headers then Waits(waiting, p) + {h} else Waits(waiting, p)
    decreases |parents|
  {
    if parents != [] {
      var q := parents[0];
      EnrolAt(if q in g.headers then waiting else waiting[q := Waits(waiting, q) + {h}], g, parents[1..], h, p);
    }
  }

  lemma {:induction false} EnrolNoneEmpty(waiting: Waiting, g: Dag, parents: seq<Id>, h: Id)
    requires NoneEmpty(waiting)
    ensures NoneEmpty(Enrol(waiting, g, parents, h))
    decreases |parents|
  {
    if parents != [] {
      var q := parents[0];
      EnrolNoneEmpty(if q in g.headers then waiting else waiting[q := Waits(waiting, q) + {h}], g, parents[1..], h);
    }
  }

  lemma EvictKeepsWaiting(waiting: Waiting, orphans: Orphans, held: set<Id>, h: Id)
    requires WaitingExact(waiting, orphans, held) && h in orphans
    ensures WaitingExact(Unwait(waiting, orphans[h].header.parents, h), orphans - {h}, held)
  {
    var parents, left := orphans[h].header.parents, orphans - {h};
    var w := Unwait(waiting, parents, h);
    UnwaitNoneEmpty(waiting, parents, h);
    forall p ensures Tracks(w, left, held, p) {
      UnwaitAt(waiting, parents, h, p);
      assert Tracks(waiting, orphans, held, p);
      forall c ensures c in Waits(w, p) <==> Awaits(left, held, p, c) {
        assert c in Waits(waiting, p) <==> Awaits(orphans, held, p, c);
      }
    }
  }

  // Some orphans went, and nothing else changed.
  ghost predicate PoolShrank(s: State, t: State) {
    t == s.(orphans := t.orphans, order := t.order, waiting := t.waiting) && t.orphans.Keys <= s.orphans.Keys
  }

  lemma NothingListed(order: seq<Id>, orphans: Orphans)
    requires Listed(order, orphans) && order == []
    ensures |orphans| == 0
  {
    assert orphans.Keys == {};
    assert |orphans| == |orphans.Keys|;
  }

  lemma EvictOldestKeeps(config: Config, s: State)
    requires Inv(config, s) && s.order != []
    ensures var t := EvictOldest(s);
      && Inv(config, t) && |t.orphans| == |s.orphans| - 1
      && PoolShrank(s, t)
  {
    var h := s.order[0];
    assert h in s.order;
    var t := EvictOldest(s);
    EvictKeepsWaiting(s.waiting, s.orphans, s.dag.headers.Keys, h);
    FewerKeys(s.orphans, h);
    forall x ensures x in t.order <==> x in t.orphans {
      assert x in s.order <==> x == h || x in s.order[1..];
    }
    forall c ensures !Complete(t.orphans, s.dag.headers.Keys, c) {
      assert !Complete(s.orphans, s.dag.headers.Keys, c);
    }
  }

  lemma {:induction false} EvictedKeeps(config: Config, s: State, most: nat)
    requires Inv(config, s)
    ensures var t := Evicted(s, most);
      && Inv(config, t) && (|t.orphans| < most || |t.orphans| == 0)
      && PoolShrank(s, t)
    decreases |s.order|
  {
    if |s.orphans| < most {
    } else if s.order == [] {
      NothingListed(s.order, s.orphans);
    } else {
      EvictOldestKeeps(config, s);
      EvictedKeeps(config, EvictOldest(s), most);
    }
  }

  lemma HoldKeepsWaiting(waiting: Waiting, g: Dag, orphans: Orphans, h: Header, source: PeerId)
    requires WaitingExact(waiting, orphans, g.headers.Keys) && h.hash !in orphans
    ensures WaitingExact(Enrol(waiting, g, h.parents, h.hash), orphans[h.hash := Orphan(h, source)], g.headers.Keys)
  {
    var w, more := Enrol(waiting, g, h.parents, h.hash), orphans[h.hash := Orphan(h, source)];
    EnrolNoneEmpty(waiting, g, h.parents, h.hash);
    forall p ensures Tracks(w, more, g.headers.Keys, p) {
      EnrolAt(waiting, g, h.parents, h.hash, p);
      assert Tracks(waiting, orphans, g.headers.Keys, p);
      forall c ensures c in Waits(w, p) <==> Awaits(more, g.headers.Keys, p, c) {
        assert c in Waits(waiting, p) <==> Awaits(orphans, g.headers.Keys, p, c);
      }
    }
  }

  lemma HoldKeepsListed(order: seq<Id>, orphans: Orphans, h: Id, o: Orphan)
    requires Listed(order, orphans) && h !in orphans
    ensures Listed(order + [h], orphans[h := o]) && |orphans[h := o]| == |orphans| + 1
  {
    DistinctConcat(order, [h]);
    assert orphans[h := o].Keys == orphans.Keys + {h};
  }

  lemma HoldKeepsIncomplete(orphans: Orphans, held: set<Id>, h: Header, o: Orphan, requested: map<Id, Request>,
      peers: set<PeerId>)
    requires Stored(orphans, held) && NoneComplete(orphans, held) && RequestsOwed(requested, peers, orphans, held)
    requires o.header == h && h.hash !in held && h.hash !in requested && exists p :: p in h.parents && p !in held
    ensures var more := orphans[h.hash := o];
      Stored(more, held) && NoneComplete(more, held) && RequestsOwed(requested, peers, more, held)
  {
    var more := orphans[h.hash := o];
    forall c ensures !Complete(more, held, c) {
      assert !Complete(orphans, held, c);
    }
  }

  lemma HoldKeeps(config: Config, s: State, h: Header, source: PeerId)
    requires Inv(config, s) && |s.orphans| < Bound(config)
    requires LacksParent(s.dag, h) && h.hash !in s.orphans && h.hash !in s.requested
    ensures Inv(config, Hold(s, h, source))
  {
    var held, o := s.dag.headers.Keys, Orphan(h, source);
    assert exists p :: p in h.parents && p !in held;
    HoldKeepsWaiting(s.waiting, s.dag, s.orphans, h, source);
    HoldKeepsListed(s.order, s.orphans, h.hash, o);
    HoldKeepsIncomplete(s.orphans, held, h, o, s.requested, s.peers.Keys);
  }

  lemma StoreOrphanKeeps(config: Config, s: State, h: Header, source: PeerId)
    requires Inv(config, s)
    requires LacksParent(s.dag, h) && h.hash !in s.orphans && h.hash !in s.requested
    ensures var t := StoreOrphan(config, s, h, source);
      && Inv(config, t) && t.dag == s.dag && t.peers == s.peers && t.requested == s.requested
      && t.orphans.Keys <= s.orphans.Keys + {h.hash} && h.hash in t.orphans
  {
    EvictedKeeps(config, s, config.maxOrphans);
    HoldKeeps(config, Evicted(s, config.maxOrphans), h, source);
  }

  /* ---------- requests ---------- */

  lemma {:induction false} MarkedAt(requested: map<Id, Request>, hashes: seq<Id>, entry: Request)
    ensures var m := Marked(requested, hashes, entry);
      forall h :: h in m <==> h in requested || h in hashes
    ensures var m := Marked(requested, hashes, entry);
      forall h :: h in m ==> m[h] == if h in hashes then entry else requested[h]
    decreases |hashes|
  {
    if hashes != [] {
      var next := requested[hashes[0] := entry];
      MarkedAt(next, hashes[1..], entry);
      assert Marked(requested, hashes, entry) == Marked(next, hashes[1..], entry);
      assert forall h :: h in hashes <==> h == hashes[0] || h in hashes[1..];
    }
  }

  lemma {:induction false} NotRequestedAre(requested: map<Id, Request>, hashes: seq<Id>)
    ensures forall h :: h in NotRequested(requested, hashes) <==> h in hashes && h !in requested
    decreases |hashes|
  {
    if hashes != [] {
      NotRequestedAre(requested, hashes[1..]);
      assert forall h :: h in hashes <==> h == hashes[0] || h in hashes[1..];
    }
  }

  lemma {:induction false} UnknownAre(s: State, hashes: seq<Id>)
    ensures forall h :: h in Unknown(s, hashes) <==> h in hashes && !Sync.Known(s, h)
    decreases |hashes|
  {
    if hashes != [] {
      UnknownAre(s, hashes[1..]);
      assert forall h :: h in hashes <==> h == hashes[0] || h in hashes[1..];
    }
  }

  lemma RequestFromKeeps(config: Config, s: State, peer: PeerId, hashes: seq<Id>, now: nat)
    requires Inv(config, s) && peer in s.peers && forall h :: h in hashes ==> !Sync.Known(s, h)
    ensures var t := RequestFrom(s, peer, hashes, now).0; Inv(config, t) && t == s.(requested := t.requested)
  {
    var wanted := ToRequest(s, hashes);
    NotRequestedAre(s.requested, hashes);
    assert forall h :: h in wanted ==> h in NotRequested(s.requested, hashes);
    MarkedAt(s.requested, wanted, Request(peer, now));
  }
}
