// The synchronisation machine as an object: handlers that update it in place.
module DagSyncs {
  import opened Blocks
  import opened Ghostdag
  import opened DagStores
  import opened SortedKeys
  import opened Protocol
  import opened Sync

  class DagSync {
    const dag: DagStore
    const gate: Gate
    const config: Config
    var peers: Peers
    var orphans: map<Id, Orphan>
    var order: seq<Id>
    var waiting: map<Id, set<Id>>
    var requested: map<Id, Request>
    var bodies: map<Id, Body>
    var accepted: seq<Id>
    var cursor: nat

    ghost function View(): State
      reads this, dag
    {
      State(dag.View(), peers, orphans, order, waiting, requested, bodies, accepted, cursor)
    }

    constructor (dag: DagStore, gate: Gate, config: Config)
      ensures View() == NewSync(dag.View())
      ensures this.dag == dag && this.gate == gate && this.config == config
    {
      this.dag, this.gate, this.config := dag, gate, config;
      peers, orphans, order, waiting := map[], map[], [], map[];
      requested, bodies, accepted, cursor := map[], map[], [], 0;
    }

    /* ---------- requests and announcements ---------- */

    // `announce`
    method Announce(hash: Id, exclude: Option<PeerId>) returns (actions: seq<Action>)
      modifies this`peers
      ensures (View(), actions) == old(Sync.Announce(View(), hash, exclude))
    {
      var listed := InOrder(peers.Keys);
      var targets := Told(peers, listed, hash, exclude);
      ghost var goal := NotedBy(peers, targets, hash);
      for i := 0 to |targets|
        invariant goal == NotedBy(peers, targets[i..], hash)
      {
        assert targets[i..][1..] == targets[i + 1..];
        peers := WithPeer(peers, targets[i], (p: PeerState) => Noted(p, hash));
      }
      assert targets[|targets|..] == [];
      actions := SendAll(targets, InvBlocks([hash]));
    }

    // `request_from`
    method RequestFrom(peer: PeerId, hashes: seq<Id>, now: nat) returns (actions: seq<Action>)
      modifies this`requested
      ensures (View(), actions) == old(Sync.RequestFrom(View(), peer, hashes, now))
    {
      var wanted := FirstOf(NotRequested(requested, hashes), MAX_INV_ENTRIES);
      if wanted == [] {
        return [];
      }
      ghost var goal := Marked(requested, wanted, Request(peer, now));
      for i := 0 to |wanted|
        invariant goal == Marked(requested, wanted[i..], Request(peer, now))
      {
        assert wanted[i..][1..] == wanted[i + 1..];
        requested := requested[wanted[i] := Request(peer, now)];
      }
      assert wanted[|wanted|..] == [];
      actions := [Send(peer, GetBlocks(wanted))];
    }

    // The hashes neither in the DAG nor held as orphans.
    method CollectUnknown(hashes: seq<Id>) returns (wanted: seq<Id>)
      ensures wanted == Unknown(View(), hashes)
    {
      wanted := [];
      for i := 0 to |hashes|
        invariant Unknown(View(), hashes) == wanted + Unknown(View(), hashes[i..])
      {
        assert hashes[i..][1..] == hashes[i + 1..];
        if hashes[i] !in dag.headers && hashes[i] !in orphans {
          wanted := wanted + [hashes[i]];
        }
      }
      assert hashes[|hashes|..] == [];
    }

    // `request_unknown`
    method RequestUnknown(peer: PeerId, hashes: seq<Id>, now: nat) returns (actions: seq<Action>)
      modifies this`requested
      ensures (View(), actions) == old(Sync.RequestUnknown(View(), peer, hashes, now))
    {
      var wanted := CollectUnknown(hashes);
      actions := RequestFrom(peer, wanted, now);
    }

    // `penalise`
    method Penalise(peer: PeerId, penalty: int, reason: string) returns (actions: seq<Action>)
      modifies this`peers
      ensures (View(), actions) == old(Sync.Penalise(View(), peer, penalty, reason))
    {
      if peer !in peers {
        return [];
      }
      var p := Penalised(peers[peer], penalty);
      peers := peers[peer := p];
      actions := if p.score <= BAN_THRESHOLD then [Disconnect(peer, reason)] else [];
    }

    /* ---------- the orphan pool ---------- */

    method StopWaiting(parents: seq<Id>, h: Id)
      modifies this`waiting
      ensures waiting == Unwait(old(waiting), parents, h)
    {
      ghost var goal := Unwait(waiting, parents, h);
      for i := 0 to |parents|
        invariant goal == Unwait(waiting, parents[i..], h)
      {
        assert parents[i..][1..] == parents[i + 1..];
        var p := parents[i];
        if p in waiting {
          var left := waiting[p] - {h};
          waiting := if left == {} then waiting - {p} else waiting[p := left];
        }
      }
      assert parents[|parents|..] == [];
    }

    method StartWaiting(parents: seq<Id>, h: Id)
      modifies this`waiting
      ensures waiting == Enrol(old(waiting), dag.View(), parents, h)
    {
      ghost var goal := Enrol(waiting, dag.View(), parents, h);
      for i := 0 to |parents|
        invariant goal == Enrol(waiting, dag.View(), parents[i..], h)
      {
        assert parents[i..][1..] == parents[i + 1..];
        var p := parents[i];
        if p !in dag.headers {
          waiting := waiting[p := Waits(waiting, p) + {h}];
        }
      }
      assert parents[|parents|..] == [];
    }

    // The eviction loop of `store_orphan`.
    method Evict()
      modifies this`orphans, this`order, this`waiting
      ensures View() == old(Evicted(View(), config.maxOrphans))
    {
      ghost var goal := Evicted(View(), config.maxOrphans);
      while |orphans| >= config.maxOrphans && order != []
        invariant goal == Evicted(View(), config.maxOrphans)
        decreases |order|
      {
        ghost var next := EvictOldest(View());
        var oldest := order[0];
        order := order[1..];
        if oldest in orphans {
          var parents := orphans[oldest].header.parents;
          orphans := orphans - {oldest};
          StopWaiting(parents, oldest);
        }
        assert View() == next;
      }
    }

    // `store_orphan`
    method StoreOrphan(h: Header, source: PeerId)
      modifies this`orphans, this`order, this`waiting
      ensures View() == old(Sync.StoreOrphan(config, View(), h, source))
    {
      Evict();
      StartWaiting(h.parents, h.hash);
      orphans := orphans[h.hash := Orphan(h, source)];
      order := order + [h.hash];
    }

    method DropFromOrder(h: Id)
      modifies this`order
      ensures order == Without(old(order), h)
    {
      var kept: seq<Id> := [];
      for i := 0 to |order|
        invariant order == old(order)
        invariant Without(order, h) == kept + Without(order[i..], h)
      {
        assert order[i..][1..] == order[i + 1..];
        if order[i] != h {
          kept := kept + [order[i]];
        }
      }
      assert order[|order|..] == [];
      order := kept;
    }

    // `dag.add_block`, as far as the caller looks at its answer.
    method TryAdd(h: Header) returns (taken: bool)
      requires dag.Valid()
      modifies dag
      ensures dag.Valid()
      ensures taken == old(Grown(dag.View(), h).Some?)
      ensures dag.View() == old(match Grown(dag.View(), h) case Some(g) => g case None => dag.View())
    {
      var r := dag.Add(h);
      taken := r.Ok?;
    }

    // One orphan whose parents have all arrived.
    method ReleaseOne(child: Id) returns (actions: seq<Action>, more: seq<Id>)
      requires dag.Valid() && child in orphans
      modifies this`orphans, this`order, this`accepted, this`peers, dag
      ensures dag.Valid() && (View(), actions, more) == old(Release(View(), child))
    {
      var orphan := orphans[child];
      orphans := orphans - {child};
      DropFromOrder(child);
      var taken := TryAdd(orphan.header);
      actions, more := [], [];
      if taken {
        accepted := accepted + [child];
        actions := Announce(child, Some(orphan.source));
        more := [child];
      }
    }

    // `resolve_orphans_of`
    method ResolveOrphansOf(hash: Id) returns (actions: seq<Action>)
      requires dag.Valid()
      modifies this`orphans, this`order, this`waiting, this`accepted, this`peers, dag
      ensures dag.Valid() && (View(), actions) == old(Resolve(View(), [hash], []))
    {
      ghost var goal := Resolve(View(), [hash], []);
      actions := [];
      var queue := [hash];
      while queue != []
        invariant dag.Valid() && goal == Resolve(View(), queue, actions)
        decreases |orphans| + |queue|
      {
        var parent := queue[0];
        ghost var before := View();
        queue := queue[1..];
        if parent in waiting {
          var children := InOrder(waiting[parent]);
          waiting := waiting - {parent};
          ghost var after := ReleaseAll(View(), children, actions, queue);
          actions, queue := ReleaseChildren(children, actions, queue);
          assert (View(), actions, queue) == after;
        }
      }
    }

    method ReleaseChildren(children: seq<Id>, actions0: seq<Action>, queue0: seq<Id>) returns (actions: seq<Action>,
        queue: seq<Id>)
      requires dag.Valid()
      modifies this`orphans, this`order, this`accepted, this`peers, dag
      ensures dag.Valid() && (View(), actions, queue) == old(ReleaseAll(View(), children, actions0, queue0))
    {
      actions, queue := actions0, queue0;
      ghost var goal := ReleaseAll(View(), children, actions, queue);
      for i := 0 to |children|
        invariant dag.Valid() && goal == ReleaseAll(View(), children[i..], actions, queue)
      {
        assert children[i..][1..] == children[i + 1..];
        var child := children[i];
        if child in orphans {
          var present := AllPresent(orphans[child].header.parents);
          if present {
            var a, more := ReleaseOne(child);
            actions, queue := actions + a, queue + more;
          }
        }
      }
      assert children[|children|..] == [];
    }

    method AllPresent(parents: seq<Id>) returns (all: bool)
      ensures all == AllHeld(dag.View(), parents)
    {
      for i := 0 to |parents|
        invariant forall p :: p in parents[..i] ==> p in dag.headers
      {
        if parents[i] !in dag.headers {
          assert parents[i] in parents;
          return false;
        }
      }
      assert parents[..|parents|] == parents;
      all := true;
    }

    /* ---------- blocks ---------- */

    // What follows a block joining the DAG.
    method Accept(hash: Id, source: Option<PeerId>) returns (actions: seq<Action>)
      requires dag.Valid()
      modifies this`orphans, this`order, this`waiting, this`accepted, this`peers, dag
      ensures dag.Valid() && (View(), actions) == old(AcceptedBlock(View(), dag.View(), hash, source))
    {
      accepted := accepted + [hash];
      actions := Announce(hash, source);
      var resolved := ResolveOrphansOf(hash);
      actions := actions + resolved;
    }

    // `on_local_block`
    method OnLocalBlock(block: Payload) returns (actions: seq<Action>)
      requires dag.Valid()
      modifies this, dag
      ensures dag.Valid() && (View(), actions) == old(Sync.OnLocalBlock(View(), block))
    {
      ghost var s := View();
      var hash := block.header.hash;
      bodies := bodies[hash := block.transactions];
      var taken := TryAdd(block.header);
      actions := [];
      if taken {
        assert View() == s.(bodies := s.bodies[hash := block.transactions], dag := Grown(s.dag, block.header).value);
        actions := Accept(hash, None);
      }
    }

    // `admit`
    method Admit(h: Header, source: PeerId, now: nat) returns (actions: seq<Action>)
      requires dag.Valid()
      modifies this, dag
      ensures dag.Valid() && (View(), actions) == old(Sync.Admit(config, View(), h, source, now))
    {
      ghost var s := View();
      var lacksParent := LacksParent(Dag(dag.genesis, dag.k, dag.limit, dag.headers, dag.data), h);
      var taken := TryAdd(h);
      if taken {
        peers := WithPeer(peers, source, (p: PeerState) => Rewarded(p));
        actions := Accept(h.hash, Some(source));
      } else {
        assert View() == s;
        actions := [];
        if lacksParent {
          actions := HoldBack(h, source, now);
        }
      }
    }

    // A block with missing parents is held, and they are asked for in one batch.
    method HoldBack(h: Header, source: PeerId, now: nat) returns (actions: seq<Action>)
      modifies this`orphans, this`order, this`waiting, this`requested
      ensures (View(), actions)
              == old(Sync.RequestFrom(Sync.StoreOrphan(config, View(), h, source), source, Unknown(View(), h.parents), now))
    {
      var missing := CollectUnknown(h.parents);
      StoreOrphan(h, source);
      actions := RequestFrom(source, missing, now);
    }

    method OnBlock(peer: PeerId, block: Payload, now: nat) returns (actions: seq<Action>)
      requires dag.Valid()
      modifies this, dag
      ensures dag.Valid() && (View(), actions) == old(Sync.OnBlock(config, gate, View(), peer, block, now))
    {
      var hash := block.header.hash;
      ghost var s := View();
      requested := requested - {hash};
      peers := WithPeer(peers, peer, (p: PeerState) => Noted(p, hash));
      assert View() == Received(s, peer, hash);
      if hash in dag.headers || hash in orphans {
        actions := [];
      } else if !gate(block.header) {
        actions := Penalise(peer, INVALID_BLOCK_PENALTY, "invalid block");
      } else {
        bodies := bodies[hash := block.transactions];
        actions := Admit(block.header, peer, now);
      }
    }

    // `on_blocks`
    method OnBlocks(peer: PeerId, blocks: seq<Payload>, now: nat) returns (actions: seq<Action>)
      requires dag.Valid()
      modifies this, dag
      ensures dag.Valid() && (View(), actions) == old(Sync.OnBlocks(config, gate, View(), peer, blocks, now, []))
    {
      ghost var goal := Sync.OnBlocks(config, gate, View(), peer, blocks, now, []);
      actions := [];
      for i := 0 to |blocks|
        invariant dag.Valid() && goal == Sync.OnBlocks(config, gate, View(), peer, blocks[i..], now, actions)
      {
        assert blocks[i..][1..] == blocks[i + 1..];
        var hash := blocks[i].header.hash;
        var rejected := hash !in dag.headers && hash !in orphans && !gate(blocks[i].header);
        var a := OnBlock(peer, blocks[i], now);
        actions := actions + a;
        if rejected && Drops(actions) {
          return;
        }
      }
      assert blocks[|blocks|..] == [];
    }

    // `on_get_blocks`
    method OnGetBlocks(peer: PeerId, hashes: seq<Id>) returns (actions: seq<Action>)
      modifies this`peers
      ensures (View(), actions) == old(Sync.OnGetBlocks(View(), peer, hashes))
    {
      var asked := FirstOf(hashes, MAX_BLOCK_BATCH);
      var blocks: seq<Payload> := [];
      for i := 0 to |asked|
        invariant Served(View(), asked) == blocks + Served(View(), asked[i..])
      {
        assert asked[i..][1..] == asked[i + 1..];
        if asked[i] in dag.headers {
          blocks := blocks + [Payload(dag.headers[asked[i]], if asked[i] in bodies then bodies[asked[i]] else [])];
        }
      }
      assert asked[|asked|..] == [] && blocks + [] == blocks;
      if blocks == [] {
        return [];
      }
      peers := WithPeer(peers, peer, (p: PeerState) => NotedAll(p, HashesOf(blocks)));
      actions := [Send(peer, Blocks(blocks))];
    }

    /* ---------- handlers ---------- */

    method Opening() returns (m: Message)
      requires dag.Valid()
      ensures m == Sync.Opening(config, View())
    {
      var tips := dag.TipsByWork();
      m := Version(PROTOCOL_VERSION, config.genesis, tips);
    }

    // `on_connect`
    method OnConnect(peer: PeerId) returns (actions: seq<Action>)
      requires dag.Valid()
      modifies this`peers
      ensures (View(), actions) == old(Sync.OnConnect(config, View(), peer))
    {
      var opening := Opening();
      peers := peers[peer := NEW_PEER];
      actions := [Send(peer, opening)];
    }

    // `on_disconnect`: the peer is gone, nothing is owed by it, and every other
    // peer and request is as it was, free to be asked of someone else or kept.
    method OnDisconnect(peer: PeerId)
      modifies this`peers, this`requested
      ensures View() == old(Sync.OnDisconnect(View(), peer))
      ensures peer !in peers
      ensures forall q :: q != peer ==> (q in peers <==> q in old(peers)) && (q in peers ==> peers[q] == old(peers)[q])
      ensures forall h :: h in requested <==> h in old(requested) && old(requested)[h].owner != peer
      ensures forall h :: h in requested ==> requested[h] == old(requested)[h]
    {
      peers := peers - {peer};
      requested := map h | h in requested && requested[h].owner != peer :: requested[h];
    }

    method OnVersion(peer: PeerId, version: nat, genesis: Id, tips: seq<Id>, now: nat) returns (actions: seq<Action>)
      modifies this`peers, this`requested
      ensures (View(), actions) == old(Sync.OnVersion(config, View(), peer, version, genesis, tips, now))
    {
      if version != PROTOCOL_VERSION {
        actions := Penalise(peer, FATAL_PENALTY, "protocol version mismatch");
      } else if genesis != config.genesis {
        actions := Penalise(peer, FATAL_PENALTY, "different network");
      } else if peer !in peers {
        actions := [];
      } else {
        peers := peers[peer := NotedAll(peers[peer].(handshake := Ready), tips)];
        var a := RequestUnknown(peer, tips, now);
        actions := [Send(peer, Verack)] + a;
      }
    }

    method OnInvBlocks(peer: PeerId, hashes: seq<Id>, now: nat) returns (actions: seq<Action>)
      modifies this`peers, this`requested
      ensures (View(), actions) == old(Sync.OnInvBlocks(View(), peer, hashes, now))
    {
      peers := WithPeer(peers, peer, (p: PeerState) => NotedAll(p, hashes));
      actions := RequestUnknown(peer, hashes, now);
    }

    // `on_message`
    method OnMessage(peer: PeerId, message: Message, now: nat) returns (actions: seq<Action>)
      requires dag.Valid()
      modifies this, dag
      ensures dag.Valid() && (View(), actions) == old(Sync.OnMessage(config, gate, View(), peer, message, now))
    {
      if peer !in peers {
        return [Disconnect(peer, "message from unknown peer")];
      }
      if !IsReady(peers, peer) && !message.Version? && !message.Verack? {
        var opening := Opening();
        return [Send(peer, opening)];
      }
      match message
      case Version(version, genesis, tips) =>
        actions := OnVersion(peer, version, genesis, tips, now);
      case Verack =>
        peers := peers[peer := peers[peer].(handshake := Ready)];
        actions := [];
      case Ping(nonce) =>
        actions := [Send(peer, Pong(nonce))];
      case GetTips =>
        var tips := dag.TipsByWork();
        actions := [Send(peer, Tips(tips))];
      case Tips(tips) =>
        actions := RequestUnknown(peer, tips, now);
      case InvBlocks(hashes) =>
        actions := OnInvBlocks(peer, hashes, now);
      case GetBlocks(hashes) =>
        actions := OnGetBlocks(peer, hashes);
      case Blocks(blocks) =>
        actions := OnBlocks(peer, blocks, now);
      case _ =>
        actions := [];
    }

    /* ---------- the clock ---------- */

    // `on_tick`
    method OnTick(now: nat) returns (actions: seq<Action>)
      requires dag.Valid()
      modifies this`requested, this`cursor
      ensures (View(), actions) == old(Sync.OnTick(config, View(), now))
    {
      var stale := InOrder(Overdue(now));
      requested := requested - set h | h in stale;
      var listed := InOrder(peers.Keys);
      var ready, unready := OnlyReady(peers, listed, true), OnlyReady(peers, listed, false);
      var opening := Opening();
      actions := SendAll(unready, opening);
      if stale != [] && ready != [] {
        actions := Reissue(ready, stale, now, actions);
      }
      actions := actions + SendAll(ready, GetTips);
    }

    function Overdue(now: nat): set<Id>
      reads this
    {
      set h | h in requested && (if now > requested[h].askedAt then now - requested[h].askedAt else 0) > config.timeoutMs
    }

    method Reissue(ready: seq<PeerId>, stale: seq<Id>, now: nat, actions0: seq<Action>) returns (actions: seq<Action>)
      requires ready != [] && stale != []
      modifies this`requested, this`cursor
      ensures (View(), actions) == old(Reissued(View(), ready, stale, now, actions0))
    {
      cursor := (cursor + 1) % U64;
      var start := cursor % |ready|;
      actions := actions0;
      ghost var goal := Retry(View(), ready, stale, start, now, 0, actions);
      for i := 0 to |ready|
        invariant cursor == old((cursor + 1) % U64)
        invariant goal == Retry(View(), ready, stale, start, now, i, actions)
      {
        var bucket := Bucket(stale, start, |ready|, i);
        assert actions + [] == actions;
        if bucket != [] {
          var a := RequestFrom(ready[i], bucket, now);
          actions := actions + a;
        }
      }
    }
  }
}
